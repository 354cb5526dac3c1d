/** What an OpenAPI schema accepts, read by the 3.0 and by the 3.1 rules, and what the
    rewrite between them keeps of it. */
module Acceptance {
  import opened Wrappers
  import opened JsonPointer
  import opened Nodes
  import opened Normalise

  // ---- what a schema accepts ----

  datatype Json =
    | Null
    | Bool(b: bool)
    | Num(r: real)
    | String(s: string)
    | Arr(items: seq<Json>)
    | Obj(fields: map<string, Json>)

  /** How a schema is read: by the 3.0 or the 3.1 rules. The value of a numeric scalar and
      the assertions neither version changed are left to the reader. */
  datatype Reader = Reader(v30: bool, kinds: Vocabulary, number: string -> Option<real>,
                           holds: (string, Node, Json) -> bool)

  /** No number is spelt as a boolean. */
  ghost predicate ReadsNumbers(r: Reader) {
    r.number("true").None? && r.number("false").None?
  }

  predicate HasType(j: Json, t: string) {
    match t
    case "null" => j.Null?
    case "boolean" => j.Bool?
    case "number" => j.Num?
    case "integer" => j.Num? && j.r == j.r.Floor as real
    case "string" => j.String?
    case "array" => j.Arr?
    case "object" => j.Obj?
    case _ => false
  }

  predicate TypeOk(r: Reader, nullable: bool, t: Option<Node>, j: Json) {
    match t
    case None => true
    case Some(Scalar(_, v)) => HasType(j, v) || (r.v30 && nullable && j.Null?)
    case Some(Sequence(items)) =>
      (exists i :: 0 <= i < |items| && items[i].Scalar? && HasType(j, items[i].value)) || (r.v30 && nullable && j.Null?)
    case Some(Mapping(_)) => true
  }

  function NumberOf(r: Reader, n: Option<Node>): Option<real> {
    if n.Some? && n.value.Scalar? then r.number(n.value.value) else None
  }

  /** A lower bound, inclusive or not; in 3.0 the exclusive keyword says which it is. */
  predicate LowOk(r: Reader, ex: Option<Node>, bound: Option<Node>, j: Json) {
    j.Num? ==>
      && (NumberOf(r, ex).Some? ==> j.r > NumberOf(r, ex).value)
      && (NumberOf(r, bound).Some? ==>
            if r.v30 && ex.Some? && ex.value.Scalar? && ex.value.value == "true"
            then j.r > NumberOf(r, bound).value else j.r >= NumberOf(r, bound).value)
  }

  predicate HighOk(r: Reader, ex: Option<Node>, bound: Option<Node>, j: Json) {
    j.Num? ==>
      && (NumberOf(r, ex).Some? ==> j.r < NumberOf(r, ex).value)
      && (NumberOf(r, bound).Some? ==>
            if r.v30 && ex.Some? && ex.value.Scalar? && ex.value.value == "true"
            then j.r < NumberOf(r, bound).value else j.r <= NumberOf(r, bound).value)
  }

  /** The JSON value a node writes down. */
  function ValueOf(number: string -> Option<real>, n: Node): Json {
    match n
    case Scalar(tag, text) => ScalarValue(number, tag, text)
    case Sequence(items) => Arr(seq(|items|, i requires 0 <= i < |items| => ValueOf(number, items[i])))
    case Mapping(es) => Obj(ValuesOf(number, es))
  }

  function ValuesOf(number: string -> Option<real>, es: seq<Entry>): map<string, Json> {
    map k | k in Keys(es) :: ValueOf(number, es[Index(es, k)].value)
  }

  function ScalarValue(number: string -> Option<real>, tag: string, text: string): Json {
    match tag
    case "!!null" => Null
    case "!!bool" => Bool(text == "true")
    case "!!int" => if number(text).Some? then Num(number(text).value) else String(text)
    case "!!float" => if number(text).Some? then Num(number(text).value) else String(text)
    case _ => String(text)
  }

  /** The instance is one of the values listed. */
  predicate EnumOk(r: Reader, values: Option<Node>, j: Json) {
    values.Some? && values.value.Sequence? ==>
      exists i :: 0 <= i < |values.value.items| && ValueOf(r.number, values.value.items[i]) == j
  }

  /** The keywords that look at the instance itself. */
  ghost predicate OwnOk(r: Reader, n: Node, j: Json) {
    && TypeOk(r, IsNullable(n), MapGet(n, "type"), j)
    && LowOk(r, MapGet(n, "exclusiveMinimum"), MapGet(n, "minimum"), j)
    && HighOk(r, MapGet(n, "exclusiveMaximum"), MapGet(n, "maximum"), j)
    && EnumOk(r, MapGet(n, "enum"), j)
    && forall k | r.kinds(k) == Assertion && MapGet(n, k).Some? :: r.holds(k, MapGet(n, k).value, j)
  }

  type Lookup = CompId -> Option<Node>

  /** What a subschema says of a part of the instance. */
  type Judge = (Node, Json) -> bool

  function Verdicts(judge: Judge, ns: seq<Node>, j: Json): seq<bool> {
    seq(|ns|, i requires 0 <= i < |ns| => judge(ns[i], j))
  }

  predicate AllOf(vs: seq<bool>) {
    forall i | 0 <= i < |vs| :: vs[i]
  }

  predicate AnyOf(vs: seq<bool>) {
    vs == [] || exists i :: 0 <= i < |vs| && vs[i]
  }

  predicate OneOf(vs: seq<bool>) {
    vs == [] || exists i :: (0 <= i < |vs| && vs[i] && forall k | 0 <= k < |vs| && k != i :: !vs[k])
  }

  /** The combinators over lists of schemas. */
  predicate ListsOk(judge: Judge, n: Node, j: Json) {
    && AllOf(Verdicts(judge, ListAt(n, "allOf"), j))
    && AnyOf(Verdicts(judge, ListAt(n, "anyOf"), j))
    && OneOf(Verdicts(judge, ListAt(n, "oneOf"), j))
  }

  predicate NotOk(judge: Judge, no: Option<Node>, j: Json) {
    no.Some? ==> !judge(no.value, j)
  }

  predicate ItemsOk(judge: Judge, items: Option<Node>, j: Json) {
    items.Some? && j.Arr? ==> forall i | 0 <= i < |j.items| :: judge(items.value, j.items[i])
  }

  predicate FieldOk(judge: Judge, n: Node, j: Json, f: string)
    requires j.Obj? && f in j.fields
  {
    FieldSchema(n, f).Some? ==> judge(FieldSchema(n, f).value, j.fields[f])
  }

  predicate FieldsOk(judge: Judge, n: Node, j: Json) {
    j.Obj? ==> forall f | f in j.fields :: FieldOk(judge, n, j, f)
  }

  /** Negation, and the schemas that look at parts of the instance. */
  predicate PartsOk(judge: Judge, n: Node, j: Json) {
    NotOk(judge, MapGet(n, "not"), j) && ItemsOk(judge, MapGet(n, "items"), j) && FieldsOk(judge, n, j)
  }

  /** The keywords of one schema. */
  ghost predicate KeywordsOk(r: Reader, judge: Judge, n: Node, j: Json) {
    OwnOk(r, n, j) && ListsOk(judge, n, j) && PartsOk(judge, n, j)
  }

  /** What the component behind a reference says. */
  ghost predicate RefOk(look: Lookup, judge: Judge, text: string, j: Json) {
    var ref := ParseLocalRef(text);
    ref.Some? && ref.value.tail == "" && look(ref.value.id).Some? && judge(look(ref.value.id).value, j)
  }

  /** One step of reading a schema, given what subschemas and references say. By the 3.0 rules
      the siblings of a reference say nothing; by the 3.1 rules they add to it. */
  ghost predicate Says(r: Reader, look: Lookup, judge: Judge, n: Node, j: Json) {
    if !n.Mapping? then ScalarText(n) != "false"
    else if MapGet(n, "$ref").Some? then
      RefOk(look, judge, ScalarText(MapGet(n, "$ref").value), j) && (r.v30 || KeywordsOk(r, judge, n, j))
    else
      KeywordsOk(r, judge, n, j)
  }

  /** Acceptance, followed to a depth: each step into a subschema or a reference costs one,
      so recursive schemas are read as far as anyone cares to look. */
  ghost predicate Accepts(r: Reader, look: Lookup, n: Node, j: Json, depth: nat)
    decreases depth, 0
  {
    depth == 0 || Says(r, look, JudgeAt(r, look, depth - 1), n, j)
  }

  ghost function JudgeAt(r: Reader, look: Lookup, depth: nat): Judge
    decreases depth, 1
  {
    (c, x) => Accepts(r, look, c, x, depth)
  }

  function ListAt(n: Node, k: string): seq<Node> {
    var v := MapGet(n, k);
    if v.Some? && v.value.Sequence? then v.value.items else []
  }

  /** The schema an object's field answers to: its own property's, or the additional one. */
  function FieldSchema(n: Node, f: string): Option<Node> {
    var props := MapGet(n, "properties");
    if props.Some? && MapGet(props.value, f).Some? then MapGet(props.value, f) else MapGet(n, "additionalProperties")
  }

  // ---- the schemas the claim is about ----

  /** No mapping anywhere inside. */
  predicate Flat(n: Node) {
    match n
    case Scalar(_, _) => true
    case Sequence(items) => forall i | 0 <= i < |items| :: Flat(items[i])
    case Mapping(_) => false
  }

  /** A 3.0 schema object, boolean or reference whose siblings only annotate. */
  predicate Schema(v: Vocabulary, n: Node) {
    match n
    case Scalar(_, _) => true
    case Sequence(_) => false
    case Mapping(es) => Worded(v, es) && ("$ref" in Keys(es) ==> Annotates(v, es))
  }

  /** Keys are unique and every value is of the kind its keyword takes. What an assertion or an
      enum holds is data in which nothing looks like the 3.0 keywords; annotations and examples
      may hold anything. */
  predicate Worded(v: Vocabulary, es: seq<Entry>) {
    Unique(es) && forall i | 0 <= i < |es| :: Keyword(v, es[i])
  }

  predicate Annotates(v: Vocabulary, es: seq<Entry>) {
    forall e | e in es :: e.key == "$ref" || e.key == "nullable" || v(e.key) == Annotation
  }

  predicate Keyword(v: Vocabulary, e: Entry) {
    match v(e.key)
    case Lists => e.value.Sequence? && forall i | 0 <= i < |e.value.items| :: Schema(v, e.value.items[i])
    case Subschema => Schema(v, e.value)
    case Properties =>
      e.value.Mapping? && Unique(e.value.entries)
      && forall i | 0 <= i < |e.value.entries| ::
           e.value.entries[i].value.Mapping? && Schema(v, e.value.entries[i].value)
    case Values => AllModern(e.value)
    case Assertion => AllModern(e.value)
    case Type => Flat(e.value)
    case Reference => e.value.Scalar?
    case Bound => true
    case Annotation => true
  }

  ghost predicate AllSchemas(v: Vocabulary, look: Lookup) {
    forall id {:trigger look(id)} :: look(id).Some? ==> Schema(v, look(id).value)
  }

  function Walked(look: Lookup): Lookup {
    id => WalkMaybe(look(id))
  }

  // ---- acceptance is kept ----

  lemma {:induction false} FlatWalks(n: Node)
    requires Flat(n)
    ensures Walk(n) == n
  {
    if n.Sequence? {
      forall i | 0 <= i < |n.items| ensures Walk(n.items[i]) == n.items[i] {
        FlatWalks(n.items[i]);
      }
      assert Walk(n).items == n.items;
    }
  }

  lemma Has(v: Vocabulary, n: Node, k: string)
    requires n.Mapping? && Worded(v, n.entries) && MapGet(n, k).Some?
    ensures Keyword(v, Entry(k, MapGet(n, k).value))
  {
    var i := Index(n.entries, k);
    assert Keyword(v, n.entries[i]);
  }

  lemma TypeAfter(n: Node)
    requires n.Mapping? && Unique(n.entries)
    ensures MapGet(Walk(n), "type") == WalkMaybe(if IsNullable(n) && MapGet(n, "type").Some?
                                                 then Some(WithNull(MapGet(n, "type").value)) else MapGet(n, "type"))
  {
    WalkGet(n, "type");
    LocalType(n);
    NullableGet(n, "type");
  }

  lemma TypeKept(r: Reader, n: Node, j: Json)
    requires Speaks(r.kinds) && r.v30 && n.Mapping? && Worded(r.kinds, n.entries)
    ensures TypeOk(r.(v30 := false), IsNullable(Walk(n)), MapGet(Walk(n), "type"), j)
         == TypeOk(r, IsNullable(n), MapGet(n, "type"), j)
  {
    NullableGone(n);
    TypeAfter(n);
    var t := MapGet(n, "type");
    if t.Some? {
      Has(r.kinds, n, "type");
      TypeAnswersAlike(r, IsNullable(n), t.value, j);
    }
  }

  lemma TypeAnswersAlike(r: Reader, nullable: bool, t: Node, j: Json)
    requires r.v30 && Flat(t)
    ensures TypeOk(r.(v30 := false), false, Some(Walk(if nullable then WithNull(t) else t)), j)
            == TypeOk(r, nullable, Some(t), j)
  {
    WithNullFlat(t);
    FlatWalks(t);
    FlatWalks(WithNull(t));
    if nullable {
      WithNullOk(r, t, j);
    }
  }

  lemma WithNullFlat(t: Node)
    requires Flat(t)
    ensures Flat(WithNull(t))
  {
  }

  lemma WithNullOk(r: Reader, t: Node, j: Json)
    requires r.v30 && Flat(t)
    ensures TypeOk(r.(v30 := false), false, Some(WithNull(t)), j) == TypeOk(r, true, Some(t), j)
  {
    match t {
      case Scalar(_, v) =>
        var both := WithNull(t).items;
        assert both[0].value == v && both[1].value == "null";
      case Sequence(items) =>
        var more := WithNull(t).items;
        assert forall i | 0 <= i < |items| :: more[i] == items[i];
        if more == items {
          var k :| 0 <= k < |items| && ScalarText(items[k]) == "null";
          assert items[k].Scalar?;
        } else {
          assert more[|items|].value == "null";
        }
      case Mapping(_) =>
    }
  }

  lemma BoundKept(r: Reader, ex: Option<Node>, bound: Option<Node>, j: Json)
    requires r.v30 && ReadsNumbers(r)
    ensures var after := BoundsAfter(ex, bound);
      && LowOk(r.(v30 := false), WalkMaybe(after.0), WalkMaybe(after.1), j) == LowOk(r, ex, bound, j)
      && HighOk(r.(v30 := false), WalkMaybe(after.0), WalkMaybe(after.1), j) == HighOk(r, ex, bound, j)
  {
    WalkedNumber(r, ex);
    WalkedNumber(r, bound);
  }

  lemma WalkedNumber(r: Reader, n: Option<Node>)
    ensures NumberOf(r.(v30 := false), WalkMaybe(n)) == NumberOf(r, n)
  {
    if n.Some? && n.value.Mapping? {
      LocalBelow(n.value);
    }
  }

  lemma BoundsKept(r: Reader, n: Node, j: Json)
    requires Speaks(r.kinds) && r.v30 && ReadsNumbers(r) && n.Mapping? && Worded(r.kinds, n.entries)
    ensures LowOk(r.(v30 := false), MapGet(Walk(n), "exclusiveMinimum"), MapGet(Walk(n), "minimum"), j)
         == LowOk(r, MapGet(n, "exclusiveMinimum"), MapGet(n, "minimum"), j)
    ensures HighOk(r.(v30 := false), MapGet(Walk(n), "exclusiveMaximum"), MapGet(Walk(n), "maximum"), j)
         == HighOk(r, MapGet(n, "exclusiveMaximum"), MapGet(n, "maximum"), j)
  {
    LocalBounds(n);
    WalkGet(n, "exclusiveMinimum");
    WalkGet(n, "minimum");
    WalkGet(n, "exclusiveMaximum");
    WalkGet(n, "maximum");
    BoundKept(r, MapGet(n, "exclusiveMinimum"), MapGet(n, "minimum"), j);
    BoundKept(r, MapGet(n, "exclusiveMaximum"), MapGet(n, "maximum"), j);
  }

  lemma DataKept(v: Vocabulary, n: Node, k: string)
    requires Speaks(v) && n.Mapping? && Worded(v, n.entries) && v(k) in {Assertion, Values}
    ensures MapGet(Walk(n), k) == MapGet(n, k)
  {
    WalkFinds(v, n, k);
    if MapGet(n, k).Some? {
      Has(v, n, k);
      WalkUntouched(MapGet(n, k).value);
    }
  }

  lemma OwnKept(r: Reader, n: Node, j: Json)
    requires Speaks(r.kinds) && r.v30 && ReadsNumbers(r) && n.Mapping? && Worded(r.kinds, n.entries)
    ensures OwnOk(r.(v30 := false), Walk(n), j) == OwnOk(r, n, j)
  {
    TypeKept(r, n, j);
    BoundsKept(r, n, j);
    DataKept(r.kinds, n, "enum");
    forall k | r.kinds(k) == Assertion ensures MapGet(Walk(n), k) == MapGet(n, k) {
      DataKept(r.kinds, n, k);
    }
  }

  /** What the induction supplies: the judges agree on every subschema and its rewrite. */
  ghost predicate Agree(v: Vocabulary, before: Judge, after: Judge) {
    forall c, x {:trigger before(c, x)} | Schema(v, c) :: after(Walk(c), x) == before(c, x)
  }

  lemma WalkedItems(v: Vocabulary, n: Node)
    requires n.Sequence? && forall i | 0 <= i < |n.items| :: Schema(v, n.items[i])
    ensures Walk(n).Sequence? && |Walk(n).items| == |n.items|
    ensures forall i | 0 <= i < |n.items| :: Schema(v, n.items[i]) && Walk(n).items[i] == Walk(n.items[i])
  {
  }

  lemma ListKept(v: Vocabulary, n: Node, k: string)
    requires Speaks(v) && n.Mapping? && Worded(v, n.entries) && v(k) == Lists
    ensures |ListAt(Walk(n), k)| == |ListAt(n, k)|
    ensures forall i | 0 <= i < |ListAt(n, k)| ::
              Schema(v, ListAt(n, k)[i]) && ListAt(Walk(n), k)[i] == Walk(ListAt(n, k)[i])
  {
    WalkFinds(v, n, k);
    if MapGet(n, k).Some? {
      Has(v, n, k);
      WalkedItems(v, MapGet(n, k).value);
    }
  }

  lemma ListsKept(v: Vocabulary, before: Judge, after: Judge, n: Node, j: Json)
    requires Speaks(v) && n.Mapping? && Worded(v, n.entries) && Agree(v, before, after)
    ensures ListsOk(after, Walk(n), j) == ListsOk(before, n, j)
  {
    VerdictsKept(v, before, after, n, "allOf", j);
    VerdictsKept(v, before, after, n, "anyOf", j);
    VerdictsKept(v, before, after, n, "oneOf", j);
  }

  lemma VerdictsKept(v: Vocabulary, before: Judge, after: Judge, n: Node, k: string, j: Json)
    requires Speaks(v) && n.Mapping? && Worded(v, n.entries) && v(k) == Lists && Agree(v, before, after)
    ensures Verdicts(after, ListAt(Walk(n), k), j) == Verdicts(before, ListAt(n, k), j)
  {
    ListKept(v, n, k);
  }

  lemma FieldKept(v: Vocabulary, n: Node, f: string)
    requires Speaks(v) && n.Mapping? && Worded(v, n.entries)
    ensures FieldSchema(Walk(n), f) == WalkMaybe(FieldSchema(n, f))
    ensures FieldSchema(n, f).Some? ==> Schema(v, FieldSchema(n, f).value)
  {
    WalkFinds(v, n, "properties");
    WalkFinds(v, n, "additionalProperties");
    if MapGet(n, "additionalProperties").Some? {
      Has(v, n, "additionalProperties");
    }
    var props := MapGet(n, "properties");
    if props.Some? {
      Has(v, n, "properties");
      PropertiesUntouched(props.value, f);
      if MapGet(props.value, f).Some? {
        var i := Index(props.value.entries, f);
        assert Schema(v, props.value.entries[i].value);
      }
    }
  }

  lemma NotKept(v: Vocabulary, before: Judge, after: Judge, no: Option<Node>, j: Json)
    requires Agree(v, before, after) && (no.Some? ==> Schema(v, no.value))
    ensures NotOk(after, WalkMaybe(no), j) == NotOk(before, no, j)
  {
    assert no.Some? ==> after(Walk(no.value), j) == before(no.value, j);
  }

  lemma ItemsKept(v: Vocabulary, before: Judge, after: Judge, items: Option<Node>, j: Json)
    requires Agree(v, before, after) && (items.Some? ==> Schema(v, items.value))
    ensures ItemsOk(after, WalkMaybe(items), j) == ItemsOk(before, items, j)
  {
    if items.Some? && j.Arr? {
      assert forall i | 0 <= i < |j.items| :: after(Walk(items.value), j.items[i]) == before(items.value, j.items[i]);
    }
  }

  lemma FieldsKept(v: Vocabulary, before: Judge, after: Judge, n: Node, j: Json)
    requires Speaks(v) && n.Mapping? && Worded(v, n.entries) && Agree(v, before, after)
    ensures FieldsOk(after, Walk(n), j) == FieldsOk(before, n, j)
  {
    if j.Obj? {
      forall f | f in j.fields ensures FieldOk(after, Walk(n), j, f) == FieldOk(before, n, j, f) {
        FieldKept(v, n, f);
        var c := FieldSchema(n, f);
        assert c.Some? ==> after(Walk(c.value), j.fields[f]) == before(c.value, j.fields[f]);
      }
    }
  }

  lemma SubschemaFound(v: Vocabulary, n: Node, k: string)
    requires Speaks(v) && n.Mapping? && Worded(v, n.entries) && v(k) == Subschema && !Rewritten(v, k)
    ensures MapGet(Walk(n), k) == WalkMaybe(MapGet(n, k))
    ensures MapGet(n, k).Some? ==> Schema(v, MapGet(n, k).value)
  {
    WalkFinds(v, n, k);
    if MapGet(n, k).Some? {
      Has(v, n, k);
    }
  }

  lemma PartsKept(v: Vocabulary, before: Judge, after: Judge, n: Node, j: Json)
    requires Speaks(v) && n.Mapping? && Worded(v, n.entries) && Agree(v, before, after)
    ensures PartsOk(after, Walk(n), j) == PartsOk(before, n, j)
  {
    SubschemaFound(v, n, "not");
    SubschemaFound(v, n, "items");
    NotKept(v, before, after, MapGet(n, "not"), j);
    ItemsKept(v, before, after, MapGet(n, "items"), j);
    FieldsKept(v, before, after, n, j);
  }

  lemma KeywordsKept(r: Reader, before: Judge, after: Judge, n: Node, j: Json)
    requires r.v30 && ReadsNumbers(r) && Speaks(r.kinds) && n.Mapping? && Worded(r.kinds, n.entries)
    requires Agree(r.kinds, before, after)
    ensures KeywordsOk(r.(v30 := false), after, Walk(n), j) == KeywordsOk(r, before, n, j)
  {
    OwnKept(r, n, j);
    ListsKept(r.kinds, before, after, n, j);
    PartsKept(r.kinds, before, after, n, j);
  }

  lemma ReferenceKept(v: Vocabulary, look: Lookup, before: Judge, after: Judge, text: string, j: Json)
    requires AllSchemas(v, look) && Agree(v, before, after)
    ensures RefOk(Walked(look), after, text, j) == RefOk(look, before, text, j)
  {
    var ref := ParseLocalRef(text);
    if ref.Some? && look(ref.value.id).Some? {
      var target := look(ref.value.id).value;
      assert Schema(v, target) && after(Walk(target), j) == before(target, j);
    }
  }

  lemma RefStays(v: Vocabulary, n: Node)
    requires Speaks(v) && n.Mapping? && Worded(v, n.entries)
    ensures MapGet(Walk(n), "$ref").Some? == MapGet(n, "$ref").Some?
    ensures MapGet(n, "$ref").Some? ==> ScalarText(MapGet(Walk(n), "$ref").value) == ScalarText(MapGet(n, "$ref").value)
  {
    WalkFinds(v, n, "$ref");
    if MapGet(n, "$ref").Some? {
      Has(v, n, "$ref");
    }
  }

  /** What a reference with siblings comes to say: what it said and, since the rewrite does
      not touch the siblings' standing, whatever they say too. So it goes on saying what it
      said exactly when the siblings hold wherever the reference does. */
  lemma SiblingsJoin(r: Reader, look: Lookup, before: Judge, after: Judge, n: Node, j: Json)
    requires r.v30 && ReadsNumbers(r) && Speaks(r.kinds) && n.Mapping? && Worded(r.kinds, n.entries)
    requires MapGet(n, "$ref").Some? && AllSchemas(r.kinds, look) && Agree(r.kinds, before, after)
    ensures Says(r.(v30 := false), Walked(look), after, Walk(n), j)
            == (Says(r, look, before, n, j) && KeywordsOk(r, before, n, j))
  {
    RefStays(r.kinds, n);
    KeywordsKept(r, before, after, n, j);
    ReferenceKept(r.kinds, look, before, after, ScalarText(MapGet(n, "$ref").value), j);
  }

  lemma Unsaid(v: Vocabulary, n: Node, k: string)
    requires n.Mapping? && Annotates(v, n.entries) && k != "$ref" && k != "nullable" && v(k) != Annotation
    ensures MapGet(n, k) == None
  {
  }

  lemma NoListSaid(v: Vocabulary, judge: Judge, n: Node, k: string, j: Json)
    requires n.Mapping? && Annotates(v, n.entries) && v(k) == Lists && k != "$ref" && k != "nullable"
    ensures Verdicts(judge, ListAt(n, k), j) == []
  {
    Unsaid(v, n, k);
  }

  lemma NoPartSaid(v: Vocabulary, judge: Judge, n: Node, j: Json)
    requires Speaks(v) && n.Mapping? && Annotates(v, n.entries)
    ensures PartsOk(judge, n, j) && ListsOk(judge, n, j)
  {
    Unsaid(v, n, "not");
    Unsaid(v, n, "items");
    Unsaid(v, n, "properties");
    Unsaid(v, n, "additionalProperties");
    NoListSaid(v, judge, n, "allOf", j);
    NoListSaid(v, judge, n, "anyOf", j);
    NoListSaid(v, judge, n, "oneOf", j);
  }

  lemma NoOwnSaid(r: Reader, n: Node, j: Json)
    requires Speaks(r.kinds) && n.Mapping? && Annotates(r.kinds, n.entries)
    ensures OwnOk(r, n, j)
  {
    Unsaid(r.kinds, n, "type");
    Unsaid(r.kinds, n, "minimum");
    Unsaid(r.kinds, n, "maximum");
    Unsaid(r.kinds, n, "exclusiveMinimum");
    Unsaid(r.kinds, n, "exclusiveMaximum");
    Unsaid(r.kinds, n, "enum");
    forall k | r.kinds(k) == Assertion ensures MapGet(n, k) == None {
      Unsaid(r.kinds, n, k);
    }
  }

  /** Annotations hold of everything. */
  lemma NothingSaid(r: Reader, judge: Judge, n: Node, j: Json)
    requires Speaks(r.kinds) && n.Mapping? && Annotates(r.kinds, n.entries)
    ensures KeywordsOk(r, judge, n, j)
  {
    NoOwnSaid(r, n, j);
    NoPartSaid(r.kinds, judge, n, j);
  }

  /** The rewrite keeps what a schema accepts: read by the 3.0 rules before and by the 3.1
      rules after, to every depth, through references and recursion. */
  lemma {:induction false} AcceptanceKept(r: Reader, look: Lookup, n: Node, j: Json, depth: nat)
    requires r.v30 && ReadsNumbers(r) && Speaks(r.kinds)
    requires Schema(r.kinds, n) && AllSchemas(r.kinds, look)
    ensures Accepts(r.(v30 := false), Walked(look), Walk(n), j, depth) == Accepts(r, look, n, j, depth)
    decreases depth, 0
  {
    if depth > 0 {
      var before, after := JudgeAt(r, look, depth - 1), JudgeAt(r.(v30 := false), Walked(look), depth - 1);
      JudgesAgree(r, look, before, after, depth - 1);
      SaysKept(r, look, before, after, n, j);
    }
  }

  lemma JudgesAgree(r: Reader, look: Lookup, before: Judge, after: Judge, depth: nat)
    requires r.v30 && ReadsNumbers(r) && Speaks(r.kinds) && AllSchemas(r.kinds, look)
    requires before == JudgeAt(r, look, depth) && after == JudgeAt(r.(v30 := false), Walked(look), depth)
    ensures Agree(r.kinds, before, after)
    decreases depth, 2
  {
    forall c, x {:trigger before(c, x)} | Schema(r.kinds, c) ensures after(Walk(c), x) == before(c, x) {
      JudgeKept(r, look, c, x, depth);
    }
  }

  lemma JudgeKept(r: Reader, look: Lookup, n: Node, j: Json, depth: nat)
    requires r.v30 && ReadsNumbers(r) && Speaks(r.kinds)
    requires Schema(r.kinds, n) && AllSchemas(r.kinds, look)
    ensures JudgeAt(r.(v30 := false), Walked(look), depth)(Walk(n), j) == JudgeAt(r, look, depth)(n, j)
    decreases depth, 1
  {
    AcceptanceKept(r, look, n, j, depth);
    JudgeIs(r, look, depth, n, j);
    JudgeIs(r.(v30 := false), Walked(look), depth, Walk(n), j);
  }

  lemma JudgeIs(r: Reader, look: Lookup, depth: nat, c: Node, x: Json)
    ensures JudgeAt(r, look, depth)(c, x) == Accepts(r, look, c, x, depth)
  {
  }

  lemma SaysKept(r: Reader, look: Lookup, before: Judge, after: Judge, n: Node, j: Json)
    requires r.v30 && ReadsNumbers(r) && Speaks(r.kinds) && Schema(r.kinds, n)
    requires AllSchemas(r.kinds, look) && Agree(r.kinds, before, after)
    ensures Says(r.(v30 := false), Walked(look), after, Walk(n), j) == Says(r, look, before, n, j)
  {
    if n.Mapping? {
      if MapGet(n, "$ref").Some? {
        SiblingsJoin(r, look, before, after, n, j);
        NothingSaid(r, before, n, j);
      } else {
        RefStays(r.kinds, n);
        KeywordsKept(r, before, after, n, j);
      }
    }
  }

  /** A reference with siblings, to every depth: by the 3.0 rules it says what it refers to, by
      the 3.1 rules its siblings too, so it goes on accepting what it accepted exactly when
      the siblings accept that as well. */
  lemma SiblingsAccept(r: Reader, look: Lookup, n: Node, j: Json, depth: nat)
    requires r.v30 && ReadsNumbers(r) && Speaks(r.kinds) && n.Mapping? && Worded(r.kinds, n.entries)
    requires MapGet(n, "$ref").Some? && AllSchemas(r.kinds, look)
    ensures Accepts(r.(v30 := false), Walked(look), Walk(n), j, depth + 1)
            <==> Accepts(r, look, n, j, depth + 1) && KeywordsOk(r, JudgeAt(r, look, depth), n, j)
  {
    var before, after := JudgeAt(r, look, depth), JudgeAt(r.(v30 := false), Walked(look), depth);
    JudgesAgree(r, look, before, after, depth);
    SiblingsJoin(r, look, before, after, n, j);
  }

  // ---- what the rewrite does change: data ----

  lemma KeysPush(init: seq<Entry>, last: Entry)
    ensures Keys(init + [last]) == Keys(init) + {last.key}
    ensures Unique(init + [last]) ==> Unique(init) && last.key !in Keys(init)
  {
    var es := init + [last];
    assert forall e :: e in es <==> e in init || e == last;
    if Unique(es) {
      assert forall i | 0 <= i < |init| :: init[i] == es[i];
      assert es[|init|] == last;
    }
  }

  lemma {:induction false} KeysCount(es: seq<Entry>)
    ensures |Keys(es)| <= |es|
    ensures Unique(es) ==> |Keys(es)| == |es|
  {
    if es != [] {
      var init, last := es[..|es| - 1], es[|es| - 1];
      assert es == init + [last];
      KeysPush(init, last);
      KeysCount(init);
    }
  }

  lemma ItemValues(number: string -> Option<real>, n: Node, i: nat)
    requires n.Sequence? && i < |n.items| && ValueOf(number, Walk(n)) == ValueOf(number, n)
    ensures ValueOf(number, Walk(n.items[i])) == ValueOf(number, n.items[i])
  {
    assert Walk(n).items[i] == Walk(n.items[i]);
    assert ValueOf(number, Walk(n)).items[i] == ValueOf(number, n).items[i];
  }

  lemma SameFields(number: string -> Option<real>, a: seq<Entry>, b: seq<Entry>)
    requires ValuesOf(number, a) == ValuesOf(number, b)
    ensures Keys(a) == Keys(b)
  {
    assert Keys(a) == ValuesOf(number, a).Keys && Keys(b) == ValuesOf(number, b).Keys;
  }

  /** A mapping that loses an entry loses a field. */
  lemma FieldsCount(number: string -> Option<real>, n: Node)
    requires n.Mapping? && Unique(n.entries) && ValueOf(number, Walk(n)) == ValueOf(number, n)
    ensures Modern(n)
  {
    LocalBelow(n);
    LocalShrinks(n);
    KeysCount(n.entries);
    KeysCount(Walk(n).entries);
    SameFields(number, Walk(n).entries, n.entries);
  }

  lemma EntryValues(number: string -> Option<real>, n: Node, i: nat)
    requires n.Mapping? && Unique(n.entries) && Modern(n) && i < |n.entries|
    requires ValueOf(number, Walk(n)) == ValueOf(number, n)
    ensures ValueOf(number, Walk(n.entries[i].value)) == ValueOf(number, n.entries[i].value)
  {
    var k := n.entries[i].key;
    UniqueIndex(n.entries, k, i);
    LocalShrinks(n);
    WalkGet(n, k);
    assert ValuesOf(number, Walk(n).entries)[k] == ValuesOf(number, n.entries)[k];
  }

  /** Data survives the rewrite as data exactly when nothing in it looks like a 3.0 keyword. */
  lemma {:induction false} ValueKept(number: string -> Option<real>, n: Node)
    requires KeysUnique(n)
    ensures ValueOf(number, Walk(n)) == ValueOf(number, n) <==> AllModern(n)
    decreases n
  {
    if AllModern(n) {
      WalkUntouched(n);
    }
    if ValueOf(number, Walk(n)) == ValueOf(number, n) {
      match n {
        case Scalar(_, _) =>
        case Sequence(items) =>
          forall i | 0 <= i < |items| ensures AllModern(items[i]) {
            ItemValues(number, n, i);
            ValueKept(number, items[i]);
          }
        case Mapping(es) =>
          FieldsCount(number, n);
          forall i | 0 <= i < |es| ensures AllModern(es[i].value) {
            EntryValues(number, n, i);
            ValueKept(number, es[i].value);
          }
      }
    }
  }

  /** A schema that allows one value. */
  function Only(value: Node): Node {
    Mapping([Entry("enum", Sequence([value]))])
  }

  lemma OnlyGet(value: Node, k: string)
    ensures Unique(Only(value).entries)
    ensures MapGet(Only(value), k) == if k == "enum" then Some(Sequence([value])) else None
  {
    var e := Entry("enum", Sequence([value]));
    assert Keys([e]) == {"enum"} by {
      assert e in [e];
    }
    if k == "enum" {
      IndexIs([e], k, 0);
    }
  }

  lemma OnlyWalks(value: Node)
    ensures Walk(Only(value)) == Only(Walk(value))
  {
    OnlyGet(value, "nullable");
    OnlyGet(value, "exclusiveMinimum");
    OnlyGet(value, "exclusiveMaximum");
    LocalShrinks(Only(value));
    assert Walk(Sequence([value])).items == [Walk(value)];
  }

  lemma OnlyOwn(r: Reader, value: Node, j: Json)
    requires Speaks(r.kinds)
    ensures OwnOk(r, Only(value), j) <==> ValueOf(r.number, value) == j
  {
    var n, items := Only(value), [value];
    forall k ensures MapGet(n, k) == if k == "enum" then Some(Sequence(items)) else None {
      OnlyGet(value, k);
    }
    assert items[0] == value;
    assert EnumOk(r, MapGet(n, "enum"), j) <==> ValueOf(r.number, value) == j;
  }

  lemma OnlyParts(judge: Judge, value: Node, j: Json)
    ensures ListsOk(judge, Only(value), j) && PartsOk(judge, Only(value), j)
  {
    forall k | k != "enum" ensures MapGet(Only(value), k) == None && ListAt(Only(value), k) == [] {
      OnlyGet(value, k);
    }
  }

  lemma OnlyAccepts(r: Reader, look: Lookup, value: Node, j: Json, depth: nat)
    requires Speaks(r.kinds) && depth > 0
    ensures Accepts(r, look, Only(value), j, depth) <==> ValueOf(r.number, value) == j
  {
    OnlyOwn(r, value, j);
    OnlyParts(JudgeAt(r, look, depth - 1), value, j);
    OnlyGet(value, "$ref");
  }

  /** The schema and its rewrite answer alike about one instance. */
  ghost predicate SameAnswer(r: Reader, look: Lookup, n: Node, depth: nat, j: Json) {
    Accepts(r.(v30 := false), Walked(look), Walk(n), j, depth) == Accepts(r, look, n, j, depth)
  }

  lemma OnlyAnswers(r: Reader, look: Lookup, value: Node, depth: nat, j: Json)
    requires r.v30 && Speaks(r.kinds) && depth > 0
    ensures SameAnswer(r, look, Only(value), depth, j)
            <==> ((ValueOf(r.number, Walk(value)) == j) == (ValueOf(r.number, value) == j))
  {
    OnlyWalks(value);
    OnlyAccepts(r, look, value, j, depth);
    OnlyAccepts(r.(v30 := false), Walked(look), Walk(value), j, depth);
  }

  /** A schema allowing one value allows the same one after the rewrite exactly when nothing in
      the value looks like a 3.0 keyword. */
  lemma EnumKeptExactly(r: Reader, look: Lookup, value: Node, depth: nat)
    requires r.v30 && Speaks(r.kinds) && KeysUnique(value) && depth > 0
    ensures (forall j :: SameAnswer(r, look, Only(value), depth, j)) <==> AllModern(value)
  {
    ValueKept(r.number, value);
    if AllModern(value) {
      forall j ensures SameAnswer(r, look, Only(value), depth, j) {
        OnlyAnswers(r, look, value, depth, j);
      }
    } else {
      OnlyAnswers(r, look, value, depth, ValueOf(r.number, value));
    }
  }

  /** A value with a key called nullable, as data. */
  const SETTING: Node := Mapping([Entry("nullable", Scalar("!!bool", "true"))])

  lemma SettingGet(number: string -> Option<real>)
    ensures KeysUnique(SETTING) && IsNullable(SETTING)
    ensures ValueOf(number, SETTING) == Obj(map["nullable" := Bool(true)])
  {
    var e := Entry("nullable", Scalar("!!bool", "true"));
    assert Keys([e]) == {"nullable"} by {
      assert e in [e];
    }
    IndexIs([e], "nullable", 0);
    assert ValuesOf(number, [e]) == map["nullable" := Bool(true)];
  }

  /** The object {"nullable": true} is all that a schema accepts, and its rewrite refuses it. */
  lemma EnumRewritten(r: Reader, look: Lookup, depth: nat)
    requires r.v30 && Speaks(r.kinds) && depth > 0
    ensures var j := Obj(map["nullable" := Bool(true)]);
      && Accepts(r, look, Only(SETTING), j, depth)
      && !Accepts(r.(v30 := false), Walked(look), Walk(Only(SETTING)), j, depth)
  {
    var j := Obj(map["nullable" := Bool(true)]);
    SettingGet(r.number);
    OnlyWalks(SETTING);
    OnlyAccepts(r, look, SETTING, j, depth);
    OnlyAccepts(r.(v30 := false), Walked(look), Walk(SETTING), j, depth);
    ValueKept(r.number, SETTING);
  }

  // ---- what the rewrite does change: references ----

  const ANY_ID := CompId("schemas", "Any")

  /** A reference to a schema that accepts everything, with a type beside it. */
  const TYPED_REF: Node := Mapping([Entry("$ref", Str(ComponentRef(ANY_ID))), Entry("type", Str("string"))])

  lemma TypedRefGet(k: string)
    ensures Unique(TYPED_REF.entries) && Keys(TYPED_REF.entries) == {"$ref", "type"}
    ensures MapGet(TYPED_REF, "$ref") == Some(Str(ComponentRef(ANY_ID)))
            && MapGet(TYPED_REF, "type") == Some(Str("string"))
    ensures k != "$ref" && k != "type" ==> MapGet(TYPED_REF, k) == None
  {
    var es := TYPED_REF.entries;
    assert "$ref"[0] != "type"[0];
    assert es[0] in es && es[1] in es;
    IndexIs(es, "$ref", 0);
    IndexIs(es, "type", 1);
  }

  lemma TypedRefWorded()
    ensures Worded(OpenApi, TYPED_REF.entries)
  {
    OpenApiSpeaks();
    TypedRefGet("");
    assert Keyword(OpenApi, TYPED_REF.entries[0]) && Keyword(OpenApi, TYPED_REF.entries[1]);
  }

  lemma TypedRefRefuses(r: Reader, judge: Judge)
    ensures !KeywordsOk(r, judge, TYPED_REF, Num(1.0)) || (r.v30 && IsNullable(TYPED_REF))
  {
    TypedRefGet("nullable");
    assert !HasType(Num(1.0), "string");
  }

  lemma AnyAccepts(look: Lookup, judge: Judge)
    requires look(ANY_ID) == Some(Mapping([])) && forall c, x :: judge(c, x)
    ensures RefOk(look, judge, ComponentRef(ANY_ID), Num(1.0))
  {
    assert '/' !in ANY_ID.section;
    ParseRefText(ANY_ID, "");
  }

  /** By the 3.0 rules a number is accepted there, by the 3.1 rules it is not, and the rewrite
      leaves the type where it is. */
  lemma SiblingRefuses(r: Reader, look: Lookup)
    requires r.v30 && r.kinds == OpenApi && ReadsNumbers(r) && look(ANY_ID) == Some(Mapping([]))
    requires AllSchemas(OpenApi, look)
    ensures Accepts(r, look, TYPED_REF, Num(1.0), 1)
            && !Accepts(r.(v30 := false), Walked(look), Walk(TYPED_REF), Num(1.0), 1)
  {
    var before, after := JudgeAt(r, look, 0), JudgeAt(r.(v30 := false), Walked(look), 0);
    TypedRefGet("nullable");
    AnyAccepts(look, before);
    TypedRefRefuses(r, before);
    TypedRefWorded();
    OpenApiSpeaks();
    SiblingsJoin(r, look, before, after, TYPED_REF, Num(1.0));
  }

  // ---- the whole document ----

  lemma {:induction false} LookAlike(r: Reader, f: Lookup, g: Lookup, n: Node, j: Json, depth: nat)
    requires forall id :: f(id) == g(id)
    ensures Accepts(r, f, n, j, depth) == Accepts(r, g, n, j, depth)
    decreases depth
  {
    if depth > 0 {
      var a, b := JudgeAt(r, f, depth - 1), JudgeAt(r, g, depth - 1);
      forall c, x {:trigger a(c, x)} ensures a(c, x) == b(c, x) {
        LookAlike(r, f, g, c, x, depth - 1);
        JudgeIs(r, f, depth - 1, c, x);
        JudgeIs(r, g, depth - 1, c, x);
      }
      SameJudges(a, b, n, j);
    }
  }

  lemma SameJudges(a: Judge, b: Judge, n: Node, j: Json)
    requires forall c, x {:trigger a(c, x)} :: a(c, x) == b(c, x)
    ensures ListsOk(a, n, j) == ListsOk(b, n, j) && PartsOk(a, n, j) == PartsOk(b, n, j)
  {
    assert Verdicts(a, ListAt(n, "allOf"), j) == Verdicts(b, ListAt(n, "allOf"), j);
    assert Verdicts(a, ListAt(n, "anyOf"), j) == Verdicts(b, ListAt(n, "anyOf"), j);
    assert Verdicts(a, ListAt(n, "oneOf"), j) == Verdicts(b, ListAt(n, "oneOf"), j);
  }

  /** In a loaded document: a schema read by the 3.0 rules before, and its rewrite read by
      the 3.1 rules with the rewritten components behind it, accept the same. */
  lemma DocumentKept(r: Reader, root: Node, n: Node, j: Json, depth: nat)
    requires r.v30 && r.kinds == OpenApi && ReadsNumbers(r) && Shaped(root) && Schema(OpenApi, n)
    requires forall id {:trigger Component(root, id)} ::
               Component(root, id).Some? ==> Schema(OpenApi, Component(root, id).value)
    ensures Accepts(r.(v30 := false), id => Component(Normalise30(root), id), Walk(n), j, depth)
         == Accepts(r, id => Component(root, id), n, j, depth)
  {
    OpenApiSpeaks();
    var look: Lookup := id => Component(root, id);
    var after: Lookup := id => Component(Normalise30(root), id);
    AcceptanceKept(r, look, n, j, depth);
    forall id ensures Walked(look)(id) == after(id) {
      ComponentNormalised(root, id);
    }
    LookAlike(r.(v30 := false), Walked(look), after, Walk(n), j, depth);
  }
}
