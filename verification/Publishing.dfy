/** What the worklist leaves behind: the merged components carry every source's meaning,
    and every reference in them is one the merger printed. */
module Publishing {
  import opened Wrappers
  import opened JsonPointer
  import opened Nodes
  import opened Meaning
  import opened Fingerprint
  import opened Operations
  import opened Merger
  import opened Dedupe

  /** The worklist's books, closed: consistent and with every slot filled. */
  predicate Drained(specs: Specs, s: State) {
    Consistent(specs, s) && Complete(s)
  }

  lemma SlotWellFormed(specs: Specs, s: State, slot: CompId)
    requires Consistent(specs, s) && slot in s.comps
    ensures WellFormed(slot) && s.comps[slot].baseName != ""
    ensures s.comps[slot].key in s.imported && SlotOf(s.imported, s.comps[slot].key) == slot
  {
    assert SlotHeld(specs, s, slot);
    assert KeyHeld(specs, s, s.comps[slot].key);
  }

  lemma KeyWellFormed(specs: Specs, s: State, k: Key)
    requires Consistent(specs, s) && k in s.imported
    ensures Known(specs, k) && SlotOf(s.imported, k) in s.comps && WellFormed(SlotOf(s.imported, k))
    ensures s.comps[SlotOf(s.imported, k)].key == k
  {
    assert KeyHeld(specs, s, k);
  }

  lemma DrainedIsFilled(specs: Specs, s: State)
    requires Drained(specs, s)
    ensures Filled(s.comps)
  {
    forall slot | slot in s.comps ensures s.comps[slot].node.Some? && WellFormed(slot) && s.comps[slot].baseName != "" {
      SlotWellFormed(specs, s, slot);
    }
  }

  /** No two components share a published slot. */
  lemma NamesInjective(specs: Specs, s: State, a: Key, b: Key)
    requires Consistent(specs, s) && a in s.imported && b in s.imported
    requires SlotOf(s.imported, a) == SlotOf(s.imported, b)
    ensures a == b
  {
    KeyWellFormed(specs, s, a);
    KeyWellFormed(specs, s, b);
  }

  /** Where one source's components went. */
  function Moves(imported: map<Key, string>, spec: SpecId): map<CompId, CompId> {
    map k | k in imported && k.spec == spec :: k.id := SlotOf(imported, k)
  }

  function PublishRenames(specs: Specs, imported: map<Key, string>, spec: SpecId): Renames
    requires spec in specs
  {
    map id | id in specs[spec] :: PublishMap(imported, spec, Refs(specs[spec][id]))
  }

  lemma PublishFollows(specs: Specs, s: State, spec: SpecId, n: Node)
    requires Consistent(specs, s) && RefsImported(s.imported, spec, n)
    ensures RefsFollow(n, PublishMap(s.imported, spec, Refs(n)), Moves(s.imported, spec))
  {
    forall r | r in Refs(n)
      ensures RefFollows(r, PublishMap(s.imported, spec, Refs(n)), Moves(s.imported, spec))
    {
      TargetOf(spec, n, r);
      var k := Key(spec, ParseLocalRef(r).value.id);
      KeyWellFormed(specs, s, k);
      ParseRefText(SlotOf(s.imported, k), ParseLocalRef(r).value.tail);
      assert k.id in Moves(s.imported, spec);
    }
  }

  lemma PublishCarries(specs: Specs, s: State, spec: SpecId)
    requires Drained(specs, s) && spec in specs && Filled(s.comps)
    ensures Carries(specs[spec], DocOf(s.comps), PublishRenames(specs, s.imported, spec),
                    Moves(s.imported, spec), map id | id in Moves(s.imported, spec) :: id)
  {
    var moves := Moves(s.imported, spec);
    forall id | id in moves
      ensures CarriesOne(specs[spec], DocOf(s.comps), PublishRenames(specs, s.imported, spec), moves,
                         map x | x in moves :: x, id)
    {
      var k := Key(spec, id);
      assert k in s.imported;
      KeyWellFormed(specs, s, k);
      assert SlotHeld(specs, s, SlotOf(s.imported, k));
      assert HoldsCopy(specs, s.imported, k, s.comps[SlotOf(s.imported, k)].node.value);
      PublishFollows(specs, s, spec, NodeOf(specs, k));
    }
  }

  /** Copying under published names keeps every unfolding, references with a tail included. */
  lemma PublishKeepsMeaning(specs: Specs, s: State, spec: SpecId, n: Node, depth: nat)
    requires Drained(specs, s) && spec in specs && Filled(s.comps)
    requires RefsImported(s.imported, spec, n)
    ensures Unfold(DocOf(s.comps), Publish(s.imported, spec, n), depth) == Unfold(specs[spec], n, depth)
  {
    PublishCarries(specs, s, spec);
    PublishFollows(specs, s, spec, n);
    MovedUnfoldsAlike(specs[spec], DocOf(s.comps), PublishRenames(specs, s.imported, spec),
                      Moves(s.imported, spec), map id | id in Moves(s.imported, spec) :: id,
                      n, PublishMap(s.imported, spec, Refs(n)), depth);
  }

  /** The same schema imported from two specs gets the same fingerprint, whatever it is
      called, so dedupe sees it as one structure. */
  lemma PublishKeepsPrint(specs: Specs, s: State, k: Key)
    requires Drained(specs, s) && Filled(s.comps) && k in s.imported && k.spec in specs
    ensures HashComponent(DocOf(s.comps), SlotOf(s.imported, k), []) == HashComponent(specs[k.spec], k.id, [])
  {
    PublishCarries(specs, s, k.spec);
    var moves := Moves(s.imported, k.spec);
    assert k.id in moves;
    forall x, y | x in moves && y in moves && moves[x] == moves[y] ensures x == y {
      NamesInjective(specs, s, Key(k.spec, x), Key(k.spec, y));
    }
    HashIgnoresNames(specs[k.spec], DocOf(s.comps), PublishRenames(specs, s.imported, k.spec), moves, k.id, [], []);
  }

  /** Every reference of a published node is one the merger printed, with the source's tail. */
  lemma PublishedRefs(specs: Specs, s: State, spec: SpecId, n: Node, r: string) returns (q: string)
    requires Consistent(specs, s) && RefsImported(s.imported, spec, n)
    requires r in Refs(Publish(s.imported, spec, n))
    ensures q in Refs(n) && ParseLocalRef(q).Some? && Key(spec, ParseLocalRef(q).value.id) in s.imported
    ensures ParseLocalRef(r)
            == Some(Ref(SlotOf(s.imported, Key(spec, ParseLocalRef(q).value.id)), ParseLocalRef(q).value.tail))
    ensures Printed(s.comps.Keys, r)
  {
    RewrittenRef(n, PublishMap(s.imported, spec, Refs(n)), r);
    q :| q in Refs(n) && r == Renamed(PublishMap(s.imported, spec, Refs(n)), q);
    TargetOf(spec, n, q);
    var k := Key(spec, ParseLocalRef(q).value.id);
    KeyWellFormed(specs, s, k);
    ParseRefText(SlotOf(s.imported, k), ParseLocalRef(q).value.tail);
  }
}
