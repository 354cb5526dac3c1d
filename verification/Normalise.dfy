/** Rewriting OpenAPI 3.0 schemas to 3.1: `nullable` and the boolean exclusive bounds of
    section 4.7.24 of OpenAPI 3.0.3 become the forms of sections 6.1.1 and 6.2.2 to 6.2.5 of
    JSON Schema Validation 2020-12, without changing what is accepted. */
module Normalise {
  import opened Wrappers
  import opened JsonPointer
  import opened Nodes

  // ---- one mapping ----

  function Removed(es: seq<Entry>, x: nat): (d: seq<Entry>)
    requires x < |es|
    ensures |d| == |es| - 1
  {
    es[..x] + es[x + 1..]
  }

  function MapDelete(m: Node, key: string): Node
    requires m.Mapping?
  {
    if key in Keys(m.entries) then Mapping(Removed(m.entries, Index(m.entries, key))) else m
  }

  function Nullable(m: Node): Node
    requires m.Mapping?
  {
    var nullable := MapGet(m, "nullable");
    if nullable.None? || ScalarText(nullable.value) != "true" then m
    else
      var d := MapDelete(m, "nullable");
      match MapGet(d, "type")
      case None => d
      case Some(t) => if t.Mapping? || WithNull(t) == t then d else MapSet(d, "type", WithNull(t))
  }

  /** A type constraint that admits null as well. */
  function WithNull(t: Node): Node {
    match t
    case Scalar(_, v) => Sequence([Str(v), Str("null")])
    case Sequence(items) =>
      if exists i :: 0 <= i < |items| && ScalarText(items[i]) == "null" then t else Sequence(items + [Str("null")])
    case Mapping(_) => t
  }

  function Exclusive(m: Node, exKey: string, boundKey: string): Node
    requires m.Mapping?
  {
    var ex, bound := MapGet(m, exKey), MapGet(m, boundKey);
    if ex.None? || !ex.value.Scalar? || ex.value.value !in {"true", "false"} then m
    else if ex.value.value == "false" || bound.None? then MapDelete(m, exKey)
    else MapDelete(MapSet(m, exKey, bound.value), boundKey)
  }

  function Local(m: Node): Node
    requires m.Mapping?
  {
    Exclusive(Exclusive(Nullable(m), "exclusiveMinimum", "minimum"), "exclusiveMaximum", "maximum")
  }

  // ---- the walk ----

  /** A measure the walk descends: a mapping outweighs anything it may be given for a value. */
  function Height(n: Node): nat {
    match n
    case Scalar(_, _) => 0
    case Sequence(items) => 1 + Highest(items)
    case Mapping(es) => 2 + HighestValue(es)
  }

  function Highest(items: seq<Node>): nat {
    if items == [] then 0
    else
      var h, rest := Height(items[0]), Highest(items[1..]);
      if h < rest then rest else h
  }

  function HighestValue(es: seq<Entry>): nat {
    if es == [] then 0
    else
      var h, rest := Height(es[0].value), HighestValue(es[1..]);
      if h < rest then rest else h
  }

  lemma {:induction false} HighestIs(items: seq<Node>, i: nat)
    requires i < |items|
    ensures Height(items[i]) <= Highest(items)
  {
    if i > 0 {
      HighestIs(items[1..], i - 1);
    }
  }

  lemma {:induction false} HighestValueIs(es: seq<Entry>, i: nat)
    requires i < |es|
    ensures Height(es[i].value) <= HighestValue(es)
  {
    if i > 0 {
      HighestValueIs(es[1..], i - 1);
    }
  }

  /** Every value lower than `h`. */
  predicate Below(es: seq<Entry>, h: nat) {
    forall i | 0 <= i < |es| :: Height(es[i].value) < h
  }

  lemma {:induction false} HighestAppend(items: seq<Node>, n: Node)
    requires n.Scalar?
    ensures Highest(items + [n]) == Highest(items)
  {
    if items == [] {
      assert items + [n] == [n];
    } else {
      assert (items + [n])[1..] == items[1..] + [n];
      HighestAppend(items[1..], n);
    }
  }

  lemma WithNullHeight(t: Node)
    requires !t.Mapping?
    ensures Height(WithNull(t)) <= if t.Scalar? then 1 else Height(t)
  {
    match t {
      case Scalar(_, v) => assert Highest([Str(v), Str("null")]) == 0;
      case Sequence(items) => HighestAppend(items, Str("null"));
    }
  }

  lemma SetBelow(m: Node, key: string, value: Node, h: nat)
    requires m.Mapping? && Below(m.entries, h) && Height(value) < h
    ensures Below(MapSet(m, key, value).entries, h)
  {
  }

  lemma DeleteBelow(m: Node, key: string, h: nat)
    requires m.Mapping? && Below(m.entries, h)
    ensures Below(MapDelete(m, key).entries, h)
  {
  }

  lemma ExclusiveBelow(m: Node, exKey: string, boundKey: string, h: nat)
    requires m.Mapping? && Below(m.entries, h)
    ensures Exclusive(m, exKey, boundKey).Mapping? && Below(Exclusive(m, exKey, boundKey).entries, h)
  {
    var bound := MapGet(m, boundKey);
    DeleteBelow(m, exKey, h);
    if bound.Some? {
      SetBelow(m, exKey, bound.value, h);
      DeleteBelow(MapSet(m, exKey, bound.value), boundKey, h);
    }
  }

  lemma LocalBelow(m: Node)
    requires m.Mapping?
    ensures Local(m).Mapping? && Below(Local(m).entries, Height(m))
  {
    forall i | 0 <= i < |m.entries| ensures Height(m.entries[i].value) < Height(m) {
      HighestValueIs(m.entries, i);
    }
    var h, d := Height(m), MapDelete(m, "nullable");
    DeleteBelow(m, "nullable", h);
    var t := MapGet(d, "type");
    if t.Some? && !t.value.Mapping? {
      WithNullHeight(t.value);
      SetBelow(d, "type", WithNull(t.value), h);
    }
    var n := Nullable(m);
    ExclusiveBelow(n, "exclusiveMinimum", "minimum", h);
    ExclusiveBelow(Exclusive(n, "exclusiveMinimum", "minimum"), "exclusiveMaximum", "maximum", h);
  }

  /** The closure `walk` of normalise30: this mapping first, then its values. */
  function Walk(n: Node): Node
    decreases Height(n)
  {
    match n
    case Scalar(_, _) => n
    case Sequence(items) =>
      Sequence(seq(|items|, i requires 0 <= i < |items| => HighestIs(items, i); Walk(items[i])))
    case Mapping(_) =>
      LocalBelow(n);
      var es := Local(n).entries;
      Mapping(seq(|es|, i requires 0 <= i < |es| => Entry(es[i].key, Walk(es[i].value))))
  }

  function Normalise30(root: Node): Node
    requires root.Mapping?
  {
    Walk(MapSet(root, "openapi", Str("3.1.0")))
  }

  // ---- what a lookup finds afterwards ----

  lemma UniqueIndex(es: seq<Entry>, key: string, i: nat)
    requires Unique(es) && i < |es| && es[i].key == key
    ensures key in Keys(es) && Index(es, key) == i
  {
    IndexIs(es, key, i);
  }

  lemma RemovedGet(es: seq<Entry>, x: nat, i: nat)
    requires x < |es| && i < |es| - 1
    ensures Removed(es, x)[i] == es[if i < x then i else i + 1]
  {
  }

  lemma RemovedUnique(es: seq<Entry>, x: nat)
    requires Unique(es) && x < |es|
    ensures Unique(Removed(es, x))
  {
    var d := Removed(es, x);
    forall i, j | 0 <= i < j < |d| ensures d[i].key != d[j].key {
      RemovedGet(es, x, i);
      RemovedGet(es, x, j);
    }
  }

  lemma RemovedKeys(es: seq<Entry>, x: nat, other: string)
    requires Unique(es) && x < |es|
    ensures Unique(Removed(es, x))
    ensures other in Keys(Removed(es, x)) <==> other in Keys(es) && other != es[x].key
  {
    var d := Removed(es, x);
    RemovedUnique(es, x);
    if other in Keys(d) {
      var i := Index(d, other);
      RemovedGet(es, x, i);
      assert es[if i < x then i else i + 1] in es;
    }
    if other in Keys(es) && other != es[x].key {
      var i := Index(es, other);
      RemovedGet(es, x, if i < x then i else i - 1);
      assert d[if i < x then i else i - 1] in d;
    }
  }

  lemma RemovedIndex(es: seq<Entry>, x: nat, other: string)
    requires Unique(es) && x < |es| && other in Keys(es) && other != es[x].key
    ensures var d := Removed(es, x); other in Keys(d) && d[Index(d, other)] == es[Index(es, other)]
  {
    RemovedKeys(es, x, other);
    var d := Removed(es, x);
    var i := Index(es, other);
    RemovedGet(es, x, if i < x then i else i - 1);
    UniqueIndex(d, other, if i < x then i else i - 1);
  }

  lemma DeleteGet(m: Node, key: string, other: string)
    requires m.Mapping? && Unique(m.entries)
    ensures Unique(MapDelete(m, key).entries)
    ensures MapGet(MapDelete(m, key), other) == if other == key then None else MapGet(m, other)
  {
    if key in Keys(m.entries) {
      var x := Index(m.entries, key);
      RemovedKeys(m.entries, x, other);
      if other in Keys(m.entries) && other != key {
        RemovedIndex(m.entries, x, other);
      }
    }
  }

  lemma SetGet(m: Node, key: string, value: Node, other: string)
    requires m.Mapping? && Unique(m.entries)
    ensures Unique(MapSet(m, key, value).entries)
    ensures MapGet(MapSet(m, key, value), other) == if other == key then Some(value) else MapGet(m, other)
  {
    MapSetGet(m, key, value, other);
    assert key !in Keys(m.entries) ==> forall e | e in m.entries :: e.key != key;
  }

  predicate IsNullable(m: Node) {
    MapGet(m, "nullable").Some? && ScalarText(MapGet(m, "nullable").value) == "true"
  }

  lemma NullableGet(m: Node, k: string)
    requires m.Mapping? && Unique(m.entries)
    ensures Nullable(m).Mapping? && Unique(Nullable(m).entries)
    ensures MapGet(Nullable(m), k) ==
      if !IsNullable(m) then MapGet(m, k)
      else if k == "nullable" then None
      else if k == "type" && MapGet(m, k).Some? then Some(WithNull(MapGet(m, k).value))
      else MapGet(m, k)
  {
    if IsNullable(m) {
      DeleteGet(m, "nullable", k);
      DeleteGet(m, "nullable", "type");
      TypeWidened(MapDelete(m, "nullable"), k);
    }
  }

  lemma TypeWidened(d: Node, k: string)
    requires d.Mapping? && Unique(d.entries)
    ensures var t := MapGet(d, "type");
      var w := if t.None? || t.value.Mapping? || WithNull(t.value) == t.value then d
               else MapSet(d, "type", WithNull(t.value));
      Unique(w.entries)
      && MapGet(w, k) == if k == "type" && t.Some? then Some(WithNull(t.value)) else MapGet(d, k)
  {
    var t := MapGet(d, "type");
    if t.Some? {
      SetGet(d, "type", WithNull(t.value), k);
    }
  }

  /** The two bound keywords after the rewrite, given what they were. */
  function BoundsAfter(ex: Option<Node>, bound: Option<Node>): (Option<Node>, Option<Node>) {
    if ex.None? || !ex.value.Scalar? || ex.value.value !in {"true", "false"} then (ex, bound)
    else if ex.value.value == "false" || bound.None? then (None, bound)
    else (bound, None)
  }

  lemma ExclusiveGet(m: Node, exKey: string, boundKey: string, k: string)
    requires m.Mapping? && Unique(m.entries) && exKey != boundKey
    ensures Exclusive(m, exKey, boundKey).Mapping? && Unique(Exclusive(m, exKey, boundKey).entries)
    ensures var after := BoundsAfter(MapGet(m, exKey), MapGet(m, boundKey));
      MapGet(Exclusive(m, exKey, boundKey), k)
      == if k == exKey then after.0 else if k == boundKey then after.1 else MapGet(m, k)
  {
    var ex, bound := MapGet(m, exKey), MapGet(m, boundKey);
    if ex.Some? && ex.value.Scalar? && ex.value.value in {"true", "false"} {
      if ex.value.value == "false" || bound.None? {
        DeleteGet(m, exKey, k);
      } else {
        SetGet(m, exKey, bound.value, k);
        DeleteGet(MapSet(m, exKey, bound.value), boundKey, k);
      }
    }
  }

  /** What a keyword's value is, as far as the rewrite and acceptance care. */
  datatype Kind = Lists | Subschema | Properties | Values | Assertion | Type | Bound | Reference | Annotation

  type Vocabulary = string -> Kind

  /** The keywords of an OpenAPI 3.0 schema that bear on acceptance or on the rewrite. */
  function OpenApi(k: string): Kind {
    match k
    case "allOf" => Lists
    case "anyOf" => Lists
    case "oneOf" => Lists
    case "not" => Subschema
    case "items" => Subschema
    case "additionalProperties" => Subschema
    case "properties" => Properties
    case "enum" => Values
    case "type" => Type
    case "$ref" => Reference
    case "nullable" => Bound
    case "minimum" => Bound
    case "maximum" => Bound
    case "exclusiveMinimum" => Bound
    case "exclusiveMaximum" => Bound
    case _ =>
      if k in {"multipleOf", "maxLength", "minLength", "pattern", "maxItems", "minItems", "uniqueItems",
               "maxProperties", "minProperties", "required"} then Assertion else Annotation
  }

  /** What the proofs use of the vocabulary; it may hold more assertions. */
  predicate Speaks(v: Vocabulary) {
    && v("allOf") == Lists && v("anyOf") == Lists && v("oneOf") == Lists
    && v("not") == Subschema && v("items") == Subschema && v("additionalProperties") == Subschema
    && v("properties") == Properties && v("enum") == Values && v("type") == Type && v("$ref") == Reference
    && v("nullable") == Bound && v("minimum") == Bound && v("maximum") == Bound
    && v("exclusiveMinimum") == Bound && v("exclusiveMaximum") == Bound
  }

  lemma OpenApiSpeaks()
    ensures Speaks(OpenApi)
  {
  }

  /** The rewrite of a mapping looks only at these keywords. */
  predicate Rewritten(v: Vocabulary, k: string) {
    v(k).Type? || v(k).Bound?
  }

  lemma LocalUntouched(v: Vocabulary, m: Node, k: string)
    requires Speaks(v) && m.Mapping? && Unique(m.entries) && !Rewritten(v, k)
    ensures MapGet(Local(m), k) == MapGet(m, k)
  {
    BoundsGet(m, k);
  }

  lemma LocalType(m: Node)
    requires m.Mapping? && Unique(m.entries)
    ensures MapGet(Local(m), "nullable") == MapGet(Nullable(m), "nullable")
    ensures MapGet(Local(m), "type") == MapGet(Nullable(m), "type")
  {
    BoundsGet(m, "nullable");
    BoundsGet(m, "type");
  }

  lemma LocalBounds(m: Node)
    requires m.Mapping? && Unique(m.entries)
    ensures (MapGet(Local(m), "exclusiveMinimum"), MapGet(Local(m), "minimum"))
         == BoundsAfter(MapGet(m, "exclusiveMinimum"), MapGet(m, "minimum"))
    ensures (MapGet(Local(m), "exclusiveMaximum"), MapGet(Local(m), "maximum"))
         == BoundsAfter(MapGet(m, "exclusiveMaximum"), MapGet(m, "maximum"))
  {
    BoundsGet(m, "exclusiveMinimum");
    BoundsGet(m, "minimum");
    BoundsGet(m, "exclusiveMaximum");
    BoundsGet(m, "maximum");
  }

  lemma BoundsGet(m: Node, k: string)
    requires m.Mapping? && Unique(m.entries)
    ensures Local(m).Mapping? && Unique(Local(m).entries)
    ensures var low := BoundsAfter(MapGet(m, "exclusiveMinimum"), MapGet(m, "minimum"));
      var high := BoundsAfter(MapGet(m, "exclusiveMaximum"), MapGet(m, "maximum"));
      MapGet(Local(m), k) == match k
        case "exclusiveMinimum" => low.0
        case "minimum" => low.1
        case "exclusiveMaximum" => high.0
        case "maximum" => high.1
        case _ => MapGet(Nullable(m), k)
    ensures k !in {"nullable", "type"} ==> MapGet(Nullable(m), k) == MapGet(m, k)
  {
    NullableGet(m, k);
    NullableGet(m, "exclusiveMinimum");
    NullableGet(m, "minimum");
    NullableGet(m, "exclusiveMaximum");
    NullableGet(m, "maximum");
    var n := Nullable(m);
    var l := Exclusive(n, "exclusiveMinimum", "minimum");
    ExclusiveGet(n, "exclusiveMinimum", "minimum", k);
    ExclusiveGet(n, "exclusiveMinimum", "minimum", "exclusiveMaximum");
    ExclusiveGet(n, "exclusiveMinimum", "minimum", "maximum");
    ExclusiveGet(l, "exclusiveMaximum", "maximum", k);
  }

  const BOUNDS: set<string> := {"exclusiveMinimum", "minimum", "exclusiveMaximum", "maximum"}

  lemma KeyStays(m: Node, k: string)
    requires m.Mapping? && Unique(m.entries) && k !in BOUNDS
    ensures MapGet(Local(m), k) == MapGet(Nullable(m), k)
  {
    BoundsGet(m, k);
  }

  function WalkMaybe(n: Option<Node>): Option<Node> {
    if n.None? then None else Some(Walk(n.value))
  }

  lemma WalkGet(n: Node, k: string)
    requires n.Mapping?
    ensures Walk(n).Mapping? && MapGet(Walk(n), k) == WalkMaybe(MapGet(Local(n), k))
  {
    LocalBelow(n);
    var es, ws := Local(n).entries, Walk(n).entries;
    assert |es| == |ws| && forall i | 0 <= i < |es| :: ws[i].key == es[i].key && ws[i].value == Walk(es[i].value);
    assert forall i | 0 <= i < |es| :: es[i] in es && ws[i] in ws;
    if k in Keys(es) {
      IndexIs(ws, k, Index(es, k));
    }
    if k in Keys(ws) {
      assert ws[Index(ws, k)] in ws;
      assert es[Index(ws, k)].key == k;
    }
  }

  lemma WalkFinds(v: Vocabulary, n: Node, k: string)
    requires Speaks(v) && n.Mapping? && Unique(n.entries) && !Rewritten(v, k)
    ensures Walk(n).Mapping? && MapGet(Walk(n), k) == WalkMaybe(MapGet(n, k))
  {
    WalkGet(n, k);
    LocalUntouched(v, n, k);
  }


  /** No value of a property map is read as a keyword: all of them are mappings. */
  lemma PropertiesUntouched(m: Node, f: string)
    requires m.Mapping? && Unique(m.entries) && forall i | 0 <= i < |m.entries| :: m.entries[i].value.Mapping?
    ensures MapGet(Walk(m), f) == WalkMaybe(MapGet(m, f))
  {
    WalkGet(m, f);
    assert Local(m) == m;
  }


  // ---- what the rewrite leaves alone ----

  predicate BooleanText(n: Option<Node>) {
    n.Some? && n.value.Scalar? && n.value.value in {"true", "false"}
  }

  /** A mapping with nothing in it that 3.1 writes otherwise: it is not nullable, and neither
      exclusive keyword is a flag. */
  predicate Modern(m: Node) {
    !IsNullable(m) && !BooleanText(MapGet(m, "exclusiveMinimum")) && !BooleanText(MapGet(m, "exclusiveMaximum"))
  }

  /** So are all the mappings inside. */
  predicate AllModern(n: Node) {
    match n
    case Scalar(_, _) => true
    case Sequence(items) => forall i | 0 <= i < |items| :: AllModern(items[i])
    case Mapping(es) => Modern(n) && forall i | 0 <= i < |es| :: AllModern(es[i].value)
  }

  lemma NullableShrinks(m: Node)
    requires m.Mapping?
    ensures Nullable(m).Mapping?
    ensures if IsNullable(m) then |Nullable(m).entries| < |m.entries| else Nullable(m) == m
  {
  }

  lemma ExclusiveShrinks(m: Node, exKey: string, boundKey: string)
    requires m.Mapping?
    ensures Exclusive(m, exKey, boundKey).Mapping?
    ensures if BooleanText(MapGet(m, exKey)) then |Exclusive(m, exKey, boundKey).entries| < |m.entries|
            else Exclusive(m, exKey, boundKey) == m
  {
    var bound := MapGet(m, boundKey);
    if MapGet(m, exKey).Some? && bound.Some? {
      MapSetKeys(m, exKey, bound.value);
    }
  }

  /** Whatever the rewrite of a mapping changes costs it an entry. */
  lemma LocalShrinks(m: Node)
    requires m.Mapping?
    ensures if Modern(m) then Local(m) == m else Local(m).Mapping? && |Local(m).entries| < |m.entries|
  {
    var n := Nullable(m);
    NullableShrinks(m);
    ExclusiveShrinks(n, "exclusiveMinimum", "minimum");
    ExclusiveShrinks(Exclusive(n, "exclusiveMinimum", "minimum"), "exclusiveMaximum", "maximum");
  }

  /** A node is left as it is exactly when nothing in it is written the 3.0 way. */
  lemma {:induction false} WalkUntouched(n: Node)
    ensures Walk(n) == n <==> AllModern(n)
    decreases Height(n)
  {
    match n {
      case Scalar(_, _) =>
      case Sequence(items) =>
        forall i | 0 <= i < |items|
          ensures Walk(n).items[i] == Walk(items[i]) && (Walk(items[i]) == items[i] <==> AllModern(items[i]))
        {
          HighestIs(items, i);
          WalkUntouched(items[i]);
        }
      case Mapping(es) =>
        LocalBelow(n);
        LocalShrinks(n);
        if Modern(n) {
          EntriesUntouched(n);
        }
    }
  }

  lemma EntriesUntouched(n: Node)
    requires n.Mapping? && Local(n) == n
    ensures Walk(n) == n <==> forall i | 0 <= i < |n.entries| :: AllModern(n.entries[i].value)
    decreases Height(n), 0
  {
    var es := n.entries;
    forall i | 0 <= i < |es|
      ensures Walk(n).entries[i] == Entry(es[i].key, Walk(es[i].value))
              && (Walk(es[i].value) == es[i].value <==> AllModern(es[i].value))
    {
      HighestValueIs(es, i);
      WalkUntouched(es[i].value);
    }
  }

  // ---- once is enough ----

  /** A bound that an exclusive flag turns into the exclusive keyword is not itself a flag. */
  predicate BoundTidy(ex: Option<Node>, bound: Option<Node>) {
    ex.Some? && ScalarText(ex.value) == "true" ==> !BooleanText(bound)
  }

  predicate BoundsTidy(n: Node) {
    && BoundTidy(MapGet(n, "exclusiveMinimum"), MapGet(n, "minimum"))
    && BoundTidy(MapGet(n, "exclusiveMaximum"), MapGet(n, "maximum"))
  }

  /** Unique keys and bounds that are bounds, throughout. */
  predicate Tidy(n: Node) {
    match n
    case Scalar(_, _) => true
    case Sequence(items) => forall i | 0 <= i < |items| :: Tidy(items[i])
    case Mapping(es) => Unique(es) && BoundsTidy(n) && forall i | 0 <= i < |es| :: Tidy(es[i].value)
  }

  lemma TidyValue(n: Node, k: string)
    requires Tidy(n) && n.Mapping? && MapGet(n, k).Some?
    ensures Tidy(MapGet(n, k).value)
  {
    assert Tidy(n.entries[Index(n.entries, k)].value);
  }

  lemma TidyWithNull(t: Node)
    requires Tidy(t)
    ensures Tidy(WithNull(t))
  {
  }

  /** Rewriting one mapping leaves tidy values in it. */
  lemma LocalTidy(n: Node, k: string)
    requires Tidy(n) && n.Mapping? && MapGet(Local(n), k).Some?
    ensures Tidy(MapGet(Local(n), k).value)
  {
    var source, wrapped := LocalSource(n, k);
    TidyValue(n, source);
    if wrapped {
      TidyWithNull(MapGet(n, source).value);
    }
  }

  /** Where a value of the rewritten mapping comes from: a value of the old one, under the
      same keyword or the bound's, perhaps with null let in. */
  lemma LocalSource(n: Node, k: string) returns (source: string, wrapped: bool)
    requires n.Mapping? && Unique(n.entries) && MapGet(Local(n), k).Some?
    ensures MapGet(n, source).Some?
    ensures MapGet(Local(n), k).value == if wrapped then WithNull(MapGet(n, source).value) else MapGet(n, source).value
  {
    if k in BOUNDS {
      LocalBounds(n);
    } else {
      KeyStays(n, k);
      NullableGet(n, k);
    }
    source, wrapped := SourceIn(n, Local(n), k);
  }

  /** How the values of a rewritten mapping `l` relate to those of `n`. */
  predicate FromBounds(n: Node, l: Node) {
    && (MapGet(l, "exclusiveMinimum"), MapGet(l, "minimum"))
       == BoundsAfter(MapGet(n, "exclusiveMinimum"), MapGet(n, "minimum"))
    && (MapGet(l, "exclusiveMaximum"), MapGet(l, "maximum"))
       == BoundsAfter(MapGet(n, "exclusiveMaximum"), MapGet(n, "maximum"))
  }

  predicate SameOrWidened(was: Option<Node>, now: Option<Node>) {
    now == was || (was.Some? && now == Some(WithNull(was.value)))
  }

  lemma BoundsFrom(ex: Option<Node>, bound: Option<Node>)
    ensures var after := BoundsAfter(ex, bound);
            after.0 in {None, ex, bound} && after.1 in {None, bound}
  {
  }

  lemma SourceIn(n: Node, l: Node, k: string) returns (source: string, wrapped: bool)
    requires MapGet(l, k).Some?
    requires if k in BOUNDS then FromBounds(n, l) else SameOrWidened(MapGet(n, k), MapGet(l, k))
    ensures MapGet(n, source).Some?
    ensures MapGet(l, k).value == if wrapped then WithNull(MapGet(n, source).value) else MapGet(n, source).value
  {
    wrapped := false;
    if k !in BOUNDS {
      source, wrapped := k, MapGet(l, k) != MapGet(n, k);
    } else if MapGet(l, k) == MapGet(n, k) {
      source := k;
    } else if k == "exclusiveMinimum" || k == "minimum" {
      source := "minimum";
      BoundsFrom(MapGet(n, "exclusiveMinimum"), MapGet(n, "minimum"));
    } else {
      source := "maximum";
      BoundsFrom(MapGet(n, "exclusiveMaximum"), MapGet(n, "maximum"));
    }
  }

  lemma WalkedText(n: Option<Node>)
    ensures BooleanText(WalkMaybe(n)) == BooleanText(n)
    ensures n.Some? ==> ScalarText(Walk(n.value)) == ScalarText(n.value)
  {
    if n.Some? && n.value.Mapping? {
      LocalBelow(n.value);
    }
  }

  lemma BoundsSettle(ex: Option<Node>, bound: Option<Node>)
    requires BoundTidy(ex, bound)
    ensures !BooleanText(WalkMaybe(BoundsAfter(ex, bound).0))
  {
    WalkedText(BoundsAfter(ex, bound).0);
  }

  lemma NullableGone(n: Node)
    requires n.Mapping? && Unique(n.entries)
    ensures !IsNullable(Walk(n))
  {
    WalkGet(n, "nullable");
    LocalType(n);
    NullableGet(n, "nullable");
  }

  lemma FlagOff(ex: Option<Node>, bound: Option<Node>)
    ensures !BooleanText(bound) ==> !BooleanText(WalkMaybe(BoundsAfter(ex, bound).0))
  {
    WalkedText(BoundsAfter(ex, bound).0);
  }

  lemma FlagsOff(n: Node)
    requires n.Mapping? && Unique(n.entries)
    ensures !BooleanText(MapGet(n, "minimum")) ==> !BooleanText(WalkMaybe(MapGet(Local(n), "exclusiveMinimum")))
    ensures !BooleanText(MapGet(n, "maximum")) ==> !BooleanText(WalkMaybe(MapGet(Local(n), "exclusiveMaximum")))
  {
    LocalBounds(n);
    FlagOff(MapGet(n, "exclusiveMinimum"), MapGet(n, "minimum"));
    FlagOff(MapGet(n, "exclusiveMaximum"), MapGet(n, "maximum"));
  }

  predicate ReadsNull(n: Node) {
    ScalarText(n) == "null"
  }

  /** A list of types gets null at its end, once: only if it has none. */
  lemma NullOnce(items: seq<Node>)
    ensures WithNull(Sequence(items)).Sequence?
    ensures var more := WithNull(Sequence(items)).items;
      && items <= more && |more| <= |items| + 1
      && (|more| == |items| <==> exists n :: n in items && ReadsNull(n))
      && (|more| > |items| ==> ReadsNull(more[|items|]))
  {
    if n :| n in items && ReadsNull(n) {
      var i :| 0 <= i < |items| && items[i] == n;
      assert ScalarText(items[i]) == "null";
    }
    if i :| 0 <= i < |items| && ScalarText(items[i]) == "null" {
      assert items[i] in items && ReadsNull(items[i]);
    }
  }

  /** What the 3.0 keywords leave behind: no `nullable` that is true and, where the bound is not
      itself spelt true or false, no exclusive keyword that is. */
  lemma NoFlagsLeft(n: Node)
    requires n.Mapping? && Unique(n.entries)
    ensures !IsNullable(Walk(n))
    ensures !BooleanText(MapGet(n, "minimum")) ==> !BooleanText(MapGet(Walk(n), "exclusiveMinimum"))
    ensures !BooleanText(MapGet(n, "maximum")) ==> !BooleanText(MapGet(Walk(n), "exclusiveMaximum"))
  {
    NullableGone(n);
    FlagsOff(n);
    WalkGet(n, "exclusiveMinimum");
    WalkGet(n, "exclusiveMaximum");
  }

  /** A walked mapping gives the rewrite nothing more to do. */
  lemma NothingLeft(n: Node)
    requires n.Mapping? && Unique(n.entries) && BoundsTidy(n)
    ensures Walk(n).Mapping? && Local(Walk(n)) == Walk(n)
  {
    WalkGet(n, "nullable");
    WalkGet(n, "exclusiveMinimum");
    WalkGet(n, "exclusiveMaximum");
    LocalType(n);
    LocalBounds(n);
    NullableGet(n, "nullable");
    WalkedText(MapGet(Local(n), "nullable"));
    BoundsSettle(MapGet(n, "exclusiveMinimum"), MapGet(n, "minimum"));
    BoundsSettle(MapGet(n, "exclusiveMaximum"), MapGet(n, "maximum"));
    var w := Walk(n);
    assert !IsNullable(w) && Nullable(w) == w;
    assert !BooleanText(MapGet(w, "exclusiveMinimum")) && Exclusive(w, "exclusiveMinimum", "minimum") == w;
    assert !BooleanText(MapGet(w, "exclusiveMaximum")) && Exclusive(w, "exclusiveMaximum", "maximum") == w;
  }

  lemma LocalUnique(n: Node)
    requires n.Mapping? && Unique(n.entries)
    ensures Local(n).Mapping? && Unique(Local(n).entries)
  {
    BoundsGet(n, "type");
  }

  /** Walking twice is walking once. */
  lemma {:induction false} WalkIdempotent(n: Node)
    requires Tidy(n)
    ensures Walk(Walk(n)) == Walk(n)
    decreases Height(n)
  {
    match n {
      case Scalar(_, _) =>
      case Sequence(items) =>
        forall i | 0 <= i < |items| ensures Walk(Walk(items[i])) == Walk(items[i]) {
          HighestIs(items, i);
          WalkIdempotent(items[i]);
        }
        assert Walk(Walk(n)).items == Walk(n).items;
      case Mapping(_) =>
        LocalBelow(n);
        LocalUnique(n);
        NothingLeft(n);
        var es, ws := Local(n).entries, Walk(n).entries;
        forall i | 0 <= i < |es| ensures Walk(ws[i].value) == ws[i].value {
          UniqueIndex(es, es[i].key, i);
          LocalTidy(n, es[i].key);
          WalkIdempotent(es[i].value);
        }
        assert Walk(Walk(n)).entries == ws;
    }
  }

  // ---- and only then ----

  lemma WalkedUnique(n: Node)
    requires n.Mapping? && Unique(n.entries)
    ensures Walk(n).Mapping? && Unique(Walk(n).entries)
  {
    LocalBelow(n);
    LocalUnique(n);
    var es, ws := Local(n).entries, Walk(n).entries;
    assert forall i | 0 <= i < |es| :: ws[i].key == es[i].key;
  }

  /** A flag taken for a bound is taken for a flag the next time. */
  lemma FlagComesOff(ex: Option<Node>, bound: Option<Node>)
    requires !BoundTidy(ex, bound)
    ensures var once := BoundsAfter(ex, bound);
      once.0.Some? && BoundsAfter(WalkMaybe(once.0), WalkMaybe(once.1)).0 == None
  {
  }

  lemma SettledBounds(n: Node)
    requires n.Mapping? && Unique(n.entries) && Walk(Walk(n)) == Walk(n)
    ensures BoundsTidy(n)
  {
    var w := Walk(n);
    WalkedUnique(n);
    LocalBounds(n);
    LocalBounds(w);
    forall k | k in {"exclusiveMinimum", "minimum", "exclusiveMaximum", "maximum"}
      ensures MapGet(w, k) == WalkMaybe(MapGet(Local(n), k)) == WalkMaybe(MapGet(Local(w), k))
    {
      WalkGet(n, k);
      WalkGet(w, k);
    }
    if !BoundTidy(MapGet(n, "exclusiveMinimum"), MapGet(n, "minimum")) {
      FlagComesOff(MapGet(n, "exclusiveMinimum"), MapGet(n, "minimum"));
    }
    if !BoundTidy(MapGet(n, "exclusiveMaximum"), MapGet(n, "maximum")) {
      FlagComesOff(MapGet(n, "exclusiveMaximum"), MapGet(n, "maximum"));
    }
  }

  /** No collection is lost: each stays under its key, moves to the exclusive keyword, or has
      null let in. */
  lemma Carried(n: Node, k: string) returns (at: string, wrapped: bool)
    requires n.Mapping? && Unique(n.entries) && MapGet(n, k).Some? && !MapGet(n, k).value.Scalar?
    ensures MapGet(Local(n), at) == Some(if wrapped then WithNull(MapGet(n, k).value) else MapGet(n, k).value)
  {
    wrapped := k == "type" && IsNullable(n);
    if k in BOUNDS {
      LocalBounds(n);
    } else {
      KeyStays(n, k);
      NullableGet(n, k);
    }
    at := CarriedIn(n, Local(n), k, wrapped);
  }

  lemma CarriedIn(n: Node, l: Node, k: string, wrapped: bool) returns (at: string)
    requires MapGet(n, k).Some? && !MapGet(n, k).value.Scalar?
    requires if k in BOUNDS then FromBounds(n, l) && !wrapped
             else MapGet(l, k) == Some(if wrapped then WithNull(MapGet(n, k).value) else MapGet(n, k).value)
    ensures MapGet(l, at) == Some(if wrapped then WithNull(MapGet(n, k).value) else MapGet(n, k).value)
  {
    at := if k !in BOUNDS || MapGet(l, k) == MapGet(n, k) then k
          else if k == "minimum" then "exclusiveMinimum" else "exclusiveMaximum";
  }

  lemma SettledItems(n: Node, i: nat)
    requires n.Sequence? && i < |n.items| && Walk(Walk(n)) == Walk(n)
    ensures Walk(Walk(n.items[i])) == Walk(n.items[i])
  {
    assert Walk(n).items[i] == Walk(n.items[i]) && Walk(Walk(n)).items[i] == Walk(Walk(n).items[i]);
  }

  lemma SettledItem(t: Node, i: nat)
    requires t.Sequence? && i < |t.items| && Walk(Walk(WithNull(t))) == Walk(WithNull(t))
    ensures Walk(Walk(t.items[i])) == Walk(t.items[i])
  {
    assert WithNull(t).items[i] == t.items[i];
    SettledItems(WithNull(t), i);
  }

  /** A value that the second walk leaves alone, inside a mapping that it leaves alone. */
  lemma SettledValue(n: Node, at: string)
    requires n.Mapping? && Unique(n.entries) && Walk(Walk(n)) == Walk(n) && MapGet(Local(n), at).Some?
    ensures Walk(Walk(MapGet(Local(n), at).value)) == Walk(MapGet(Local(n), at).value)
  {
    SettledBounds(n);
    NothingLeft(n);
    WalkGet(n, at);
    WalkGet(Walk(n), at);
  }

  lemma {:induction false} SettledIsTidy(n: Node)
    requires KeysUnique(n) && Walk(Walk(n)) == Walk(n)
    ensures Tidy(n)
    decreases Height(n)
  {
    match n {
      case Scalar(_, _) =>
      case Sequence(items) =>
        forall i | 0 <= i < |items| ensures Tidy(items[i]) {
          SettledItems(n, i);
          HighestIs(items, i);
          SettledIsTidy(items[i]);
        }
      case Mapping(es) =>
        SettledBounds(n);
        forall i | 0 <= i < |es| ensures Tidy(es[i].value) {
          if !es[i].value.Scalar? {
            HighestValueIs(es, i);
            SettledEntry(n, i);
          }
        }
    }
  }

  lemma SettledEntry(n: Node, i: nat)
    requires n.Mapping? && i < |n.entries| && KeysUnique(n) && Walk(Walk(n)) == Walk(n) && !n.entries[i].value.Scalar?
    requires Height(n.entries[i].value) < Height(n)
    ensures Tidy(n.entries[i].value)
    decreases Height(n), 0
  {
    var c, k := n.entries[i].value, n.entries[i].key;
    UniqueIndex(n.entries, k, i);
    var at, wrapped := Carried(n, k);
    SettledValue(n, at);
    if wrapped && c.Sequence? {
      forall x | 0 <= x < |c.items| ensures Tidy(c.items[x]) {
        SettledItem(c, x);
        HighestIs(c.items, x);
        SettledIsTidy(c.items[x]);
      }
    } else {
      SettledIsTidy(c);
    }
  }

  const FLAG_BOUND: Node := Mapping([Entry("exclusiveMinimum", Str("true")), Entry("minimum", Str("true"))])

  /** A bound spelt true becomes the exclusive keyword, and is taken for a flag and dropped the
      next time. */
  lemma FlagBoundMoves()
    ensures Walk(Walk(FLAG_BOUND)) != Walk(FLAG_BOUND)
  {
    var es := FLAG_BOUND.entries;
    assert "exclusiveMinimum"[0] != "minimum"[0];
    IndexIs(es, "exclusiveMinimum", 0);
    IndexIs(es, "minimum", 1);
    assert !BoundTidy(MapGet(FLAG_BOUND, "exclusiveMinimum"), MapGet(FLAG_BOUND, "minimum"));
    if Walk(Walk(FLAG_BOUND)) == Walk(FLAG_BOUND) {
      SettledBounds(FLAG_BOUND);
    }
  }

  lemma SetSame(m: Node, key: string)
    requires m.Mapping? && MapGet(m, key).Some?
    ensures MapSet(m, key, MapGet(m, key).value) == m
  {
  }

  function Versioned(root: Node): Node
    requires root.Mapping?
  {
    MapSet(root, "openapi", Str("3.1.0"))
  }

  lemma SetUnique(m: Node, key: string, value: string)
    requires KeysUnique(m) && m.Mapping?
    ensures KeysUnique(MapSet(m, key, Str(value)))
  {
    var u := MapSet(m, key, Str(value));
    SetGet(m, key, Str(value), key);
    forall i | 0 <= i < |u.entries| ensures KeysUnique(u.entries[i].value) {
      assert i < |m.entries| ==> KeysUnique(m.entries[i].value);
    }
  }

  lemma RootKeywords()
    ensures Speaks(OpenApi) && !Rewritten(OpenApi, "openapi") && !Rewritten(OpenApi, "components")
  {
    OpenApiSpeaks();
  }

  lemma VersionStays(u: Node, version: Node)
    requires u.Mapping? && Unique(u.entries) && MapGet(u, "openapi") == Some(version) && version.Scalar?
    ensures Walk(u).Mapping? && MapGet(Walk(u), "openapi") == Some(version)
  {
    RootKeywords();
    WalkFinds(OpenApi, u, "openapi");
  }

  /** Normalising a document twice is normalising it once, exactly when no bound that an
      exclusive flag turns into the exclusive keyword is itself spelt true or false. */
  lemma NormaliseIdempotent(root: Node)
    requires KeysUnique(root) && root.Mapping?
    ensures Normalise30(root).Mapping? && MapGet(Normalise30(root), "openapi") == Some(Str("3.1.0"))
    ensures Normalise30(Normalise30(root)) == Normalise30(root) <==> Tidy(Versioned(root))
  {
    var u := Versioned(root);
    SetUnique(root, "openapi", "3.1.0");
    SetGet(root, "openapi", Str("3.1.0"), "openapi");
    VersionStays(u, Str("3.1.0"));
    SetSame(Walk(u), "openapi");
    if Tidy(u) {
      WalkIdempotent(u);
    }
    if Walk(Walk(u)) == Walk(u) {
      SettledIsTidy(u);
    }
  }

  // ---- the whole document ----

  /** `Spec.component`. */
  function Component(root: Node, id: CompId): Option<Node> {
    var comps := MapGet(root, "components");
    if comps.None? then None
    else
      var section := MapGet(comps.value, id.section);
      if section.None? then None else MapGet(section.value, id.name)
  }

  /** A mapping of objects by name. */
  predicate Container(m: Node) {
    m.Mapping? && Unique(m.entries) && forall i | 0 <= i < |m.entries| :: m.entries[i].value.Mapping?
  }

  predicate Shaped(root: Node) {
    && root.Mapping? && Unique(root.entries)
    && (var comps := MapGet(root, "components"); comps.Some? ==>
          Container(comps.value)
          && forall i | 0 <= i < |comps.value.entries| :: Container(comps.value.entries[i].value))
  }

  /** Components are found where they were, rewritten. */
  lemma ComponentNormalised(root: Node, id: CompId)
    requires Shaped(root)
    ensures Component(Normalise30(root), id) == WalkMaybe(Component(root, id))
  {
    var u := MapSet(root, "openapi", Str("3.1.0"));
    SetGet(root, "openapi", Str("3.1.0"), "components");
    RootKeywords();
    WalkFinds(OpenApi, u, "components");
    var comps := MapGet(root, "components");
    if comps.Some? {
      PropertiesUntouched(comps.value, id.section);
      var section := MapGet(comps.value, id.section);
      if section.Some? {
        assert Container(comps.value.entries[Index(comps.value.entries, id.section)].value);
        PropertiesUntouched(section.value, id.name);
      }
    }
  }
}
