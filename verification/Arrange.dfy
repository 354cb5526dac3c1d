/** The order in which a merge takes its operations: by path, then method, equals as given. */
module Arrange {
  import opened Text
  import opened Operations

  predicate OpLeq(a: ExposedOp, b: ExposedOp) {
    if a.gatewayPath != b.gatewayPath then Leq(a.gatewayPath, b.gatewayPath) else Leq(a.op.verb, b.op.verb)
  }

  function InsertOp(ops: seq<ExposedOp>, e: ExposedOp): seq<ExposedOp> {
    if ops == [] || OpLeq(ops[|ops| - 1], e) then ops + [e]
    else InsertOp(ops[..|ops| - 1], e) + [ops[|ops| - 1]]
  }

  /** `sort.SliceStable`. */
  function Arranged(ops: seq<ExposedOp>): seq<ExposedOp> {
    if ops == [] then [] else InsertOp(Arranged(ops[..|ops| - 1]), ops[|ops| - 1])
  }

  predicate InOrder(ops: seq<ExposedOp>) {
    forall i, j | 0 <= i < j < |ops| :: OpLeq(ops[i], ops[j])
  }

  // ---- the order ----

  lemma OpLeqTotal(a: ExposedOp, b: ExposedOp)
    ensures OpLeq(a, b) || OpLeq(b, a)
  {
    LeqTotal(a.gatewayPath, b.gatewayPath);
    LeqTotal(a.op.verb, b.op.verb);
  }

  lemma OpLeqTrans(a: ExposedOp, b: ExposedOp, c: ExposedOp)
    requires OpLeq(a, b) && OpLeq(b, c)
    ensures OpLeq(a, c)
  {
    if a.gatewayPath == b.gatewayPath == c.gatewayPath {
      LeqTrans(a.op.verb, b.op.verb, c.op.verb);
    } else if a.gatewayPath == c.gatewayPath {
      LeqAntisymmetric(a.gatewayPath, b.gatewayPath);
    } else if a.gatewayPath != b.gatewayPath && b.gatewayPath != c.gatewayPath {
      LeqTrans(a.gatewayPath, b.gatewayPath, c.gatewayPath);
    }
  }

  // ---- a permutation in order, equals as given ----

  lemma {:induction false} InsertIsPermutation(ops: seq<ExposedOp>, e: ExposedOp)
    ensures multiset(InsertOp(ops, e)) == multiset(ops) + multiset{e}
  {
    if ops != [] && !OpLeq(ops[|ops| - 1], e) {
      InsertIsPermutation(ops[..|ops| - 1], e);
      assert ops == ops[..|ops| - 1] + [ops[|ops| - 1]];
    }
  }

  lemma {:induction false} InsertKeepsOrder(ops: seq<ExposedOp>, e: ExposedOp)
    requires InOrder(ops)
    ensures InOrder(InsertOp(ops, e))
  {
    if ops == [] {
    } else if OpLeq(ops[|ops| - 1], e) {
      forall i | 0 <= i < |ops| ensures OpLeq(ops[i], e) {
        if i < |ops| - 1 {
          OpLeqTrans(ops[i], ops[|ops| - 1], e);
        }
      }
    } else {
      var init, last := ops[..|ops| - 1], ops[|ops| - 1];
      InsertKeepsOrder(init, e);
      OpLeqTotal(e, last);
      InsertIsPermutation(init, e);
      var more := InsertOp(init, e);
      forall i | 0 <= i < |more| ensures OpLeq(more[i], last) {
        assert more[i] in multiset(more);
        assert more[i] == e || more[i] in init;
      }
    }
  }

  predicate SameKey(a: ExposedOp, b: ExposedOp) {
    a.gatewayPath == b.gatewayPath && a.op.verb == b.op.verb
  }

  /** The operations at one path and method, in order. */
  function At(ops: seq<ExposedOp>, key: ExposedOp): seq<ExposedOp> {
    Filter(ops, e => SameKey(e, key))
  }

  lemma AtPush(ops: seq<ExposedOp>, e: ExposedOp, key: ExposedOp)
    ensures At(ops + [e], key) == At(ops, key) + if SameKey(e, key) then [e] else []
  {
    FilterAppend(ops, [e], x => SameKey(x, key));
  }

  lemma {:induction false} InsertIsStable(ops: seq<ExposedOp>, e: ExposedOp, key: ExposedOp)
    ensures At(InsertOp(ops, e), key) == At(ops, key) + if SameKey(e, key) then [e] else []
  {
    AtPush(ops, e, key);
    if ops != [] && !OpLeq(ops[|ops| - 1], e) {
      var init, last := ops[..|ops| - 1], ops[|ops| - 1];
      InsertIsStable(init, e, key);
      AtPush(InsertOp(init, e), last, key);
      AtPush(init, last, key);
      assert ops == init + [last];
      LeqTotal(e.op.verb, e.op.verb);
      assert !(SameKey(e, key) && SameKey(last, key));
    }
  }

  /** Sorting rearranges the operations by path and method and leaves equals as given. */
  lemma {:induction false} ArrangedSorts(ops: seq<ExposedOp>, key: ExposedOp)
    ensures multiset(Arranged(ops)) == multiset(ops) && |Arranged(ops)| == |ops|
    ensures InOrder(Arranged(ops))
    ensures At(Arranged(ops), key) == At(ops, key)
  {
    if ops != [] {
      var init, last := ops[..|ops| - 1], ops[|ops| - 1];
      ArrangedSorts(init, key);
      InsertIsPermutation(Arranged(init), last);
      InsertKeepsOrder(Arranged(init), last);
      InsertIsStable(Arranged(init), last, key);
      AtPush(init, last, key);
      assert ops == init + [last];
      assert |multiset(Arranged(ops))| == |multiset(ops)|;
    }
  }

  /** So of two operations the one taken first has the smaller path, or the same path and not
      the greater method. */
  lemma ArrangedByPath(ops: seq<ExposedOp>, i: nat, j: nat)
    requires i < j < |ops|
    ensures |Arranged(ops)| == |ops|
    ensures var a, b := Arranged(ops)[i], Arranged(ops)[j];
      if a.gatewayPath == b.gatewayPath then Precedes(a.op.verb, b.op.verb) else Precedes(a.gatewayPath, b.gatewayPath)
  {
    ArrangedSorts(ops, ops[0]);
    LeqIsPrecedes(Arranged(ops)[i].gatewayPath, Arranged(ops)[j].gatewayPath);
    LeqIsPrecedes(Arranged(ops)[i].op.verb, Arranged(ops)[j].op.verb);
  }

  lemma ArrangedHas(ops: seq<ExposedOp>, e: ExposedOp)
    ensures |Arranged(ops)| == |ops| && (e in Arranged(ops) <==> e in ops)
  {
    ArrangedSorts(ops, e);
    assert e in Arranged(ops) <==> e in multiset(Arranged(ops));
    assert e in ops <==> e in multiset(ops);
  }

  // ---- the order they were given in ----

  /** Different operations differ in path or method. */
  predicate KeysApart(ops: seq<ExposedOp>) {
    forall e, f | e in ops && f in ops && SameKey(e, f) :: e == f
  }

  lemma OpLeqAntisymmetric(a: ExposedOp, b: ExposedOp)
    requires OpLeq(a, b) && OpLeq(b, a)
    ensures SameKey(a, b)
  {
    if a.gatewayPath != b.gatewayPath {
      LeqAntisymmetric(a.gatewayPath, b.gatewayPath);
    } else {
      LeqAntisymmetric(a.op.verb, b.op.verb);
    }
  }

  lemma SameMembers<T>(a: seq<T>, b: seq<T>, e: T)
    requires multiset(a) == multiset(b)
    ensures e in a <==> e in b
  {
    assert e in a <==> e in multiset(a);
    assert e in b <==> e in multiset(b);
  }

  lemma FirstBefore(a: seq<ExposedOp>, e: ExposedOp)
    requires InOrder(a) && e in a
    ensures OpLeq(a[0], e)
  {
    OpLeqTotal(e, e);
  }

  lemma SameFirst(a: seq<ExposedOp>, b: seq<ExposedOp>)
    requires a != [] && b != [] && multiset(a) == multiset(b)
    requires InOrder(a) && InOrder(b) && KeysApart(a)
    ensures a[0] == b[0]
  {
    SameMembers(a, b, b[0]);
    SameMembers(a, b, a[0]);
    FirstBefore(a, b[0]);
    FirstBefore(b, a[0]);
    OpLeqAntisymmetric(a[0], b[0]);
  }

  lemma WithoutFirst(a: seq<ExposedOp>)
    requires a != []
    ensures multiset(a[1..]) == multiset(a) - multiset{a[0]}
  {
    assert a == [a[0]] + a[1..];
  }

  /** Two arrangements of operations with different keys are one. */
  lemma {:induction false} OneArrangement(a: seq<ExposedOp>, b: seq<ExposedOp>)
    requires multiset(a) == multiset(b) && InOrder(a) && InOrder(b) && KeysApart(a)
    ensures a == b
  {
    assert |multiset(a)| == |multiset(b)|;
    if a != [] {
      SameFirst(a, b);
      WithoutFirst(a);
      WithoutFirst(b);
      assert forall e | e in a[1..] :: e in a;
      OneArrangement(a[1..], b[1..]);
      assert a == [a[0]] + a[1..] && b == [b[0]] + b[1..];
    }
  }

  /** The order in which operations are given makes no difference to the order they are taken
      in, and so to nothing that is published. */
  lemma OrderIsFree(a: seq<ExposedOp>, b: seq<ExposedOp>)
    requires multiset(a) == multiset(b) && KeysApart(a)
    ensures Arranged(a) == Arranged(b)
  {
    if a != [] {
      ArrangedSorts(a, a[0]);
      ArrangedSorts(b, a[0]);
      forall e ensures e in Arranged(a) <==> e in a {
        SameMembers(a, Arranged(a), e);
      }
      OneArrangement(Arranged(a), Arranged(b));
    } else {
      assert |multiset(a)| == |multiset(b)|;
    }
  }
}
