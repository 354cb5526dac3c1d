/** Path templates: segments, shapes and the static-before-parameter order. */
module Paths {
  import opened Text

  /** One template position: a literal segment or a parameter, whatever its name. */
  datatype Seg = Lit(text: string) | Par

  type Shape = seq<Seg>

  /** `strings.Trim(p, "/")`. */
  function TrimSlashes(p: string): string {
    if p != "" && p[0] == '/' then TrimSlashes(p[1..])
    else if p != "" && p[|p| - 1] == '/' then TrimSlashes(p[..|p| - 1])
    else p
  }

  function SplitPath(p: string): seq<string> {
    var t := TrimSlashes(p);
    if t == "" then [] else Split(t)
  }

  predicate IsParam(seg: string) {
    |seg| >= 2 && seg[0] == '{' && seg[|seg| - 1] == '}'
  }

  function ParamName(seg: string): string
    requires IsParam(seg)
  {
    seg[1..|seg| - 1]
  }

  function SegOf(seg: string): Seg {
    if IsParam(seg) then Par else Lit(seg)
  }

  function ShapeOf(segs: seq<string>): (shape: Shape)
    ensures |shape| == |segs|
  {
    seq(|segs|, i requires 0 <= i < |segs| => SegOf(segs[i]))
  }

  function TemplateShape(template: string): Shape {
    ShapeOf(SplitPath(template))
  }

  /** The parameter names of a template, in order. */
  function NamesOf(segs: seq<string>): seq<string> {
    if segs == [] then []
    else if IsParam(segs[0]) then [ParamName(segs[0])] + NamesOf(segs[1..])
    else NamesOf(segs[1..])
  }

  /** A path fits a shape: literals agree and no parameter is empty. */
  predicate Fits(shape: Shape, segs: seq<string>) {
    && |shape| == |segs|
    && forall i | 0 <= i < |shape| ::
         match shape[i] case Lit(text) => text == segs[i] case Par => segs[i] != ""
  }

  /** The segments a shape captures, in order. */
  function Captures(shape: Shape, segs: seq<string>): seq<string>
    requires |shape| == |segs|
  {
    if shape == [] then []
    else (if shape[0].Par? then [segs[0]] else []) + Captures(shape[1..], segs[1..])
  }

  /** `a` wins over `b`: where they first differ, `a` has the literal. */
  predicate Before(a: Shape, b: Shape) {
    exists i :: 0 <= i < |a| && i < |b| && a[..i] == b[..i] && a[i].Lit? && b[i].Par?
  }

  lemma BeforeCons(x: Seg, a: Shape, b: Shape)
    requires Before(a, b)
    ensures Before([x] + a, [x] + b)
  {
    var i :| 0 <= i < |a| && i < |b| && a[..i] == b[..i] && a[i].Lit? && b[i].Par?;
    assert ([x] + a)[..i + 1] == [x] + a[..i] && ([x] + b)[..i + 1] == [x] + b[..i];
  }

  lemma LiteralFirst(text: string, a: Shape, b: Shape)
    ensures Before([Lit(text)] + a, [Par] + b)
  {
    assert ([Lit(text)] + a)[..0] == ([Par] + b)[..0];
  }

  /** Two different shapes that fit one path are ordered, one way only. */
  lemma {:induction false} BeforeTotal(a: Shape, b: Shape, segs: seq<string>)
    requires Fits(a, segs) && Fits(b, segs) && a != b
    ensures Before(a, b) <==> !Before(b, a)
  {
    if a[0] == b[0] {
      assert a == [a[0]] + a[1..] && b == [b[0]] + b[1..];
      BeforeTotal(a[1..], b[1..], segs[1..]);
      BeforeTail(a[0], a[1..], b[1..]);
      BeforeTail(a[0], b[1..], a[1..]);
    } else {
      assert a[..0] == b[..0];
      BeforeHead(a, b);
      BeforeHead(b, a);
    }
  }

  lemma BeforeTail(x: Seg, a: Shape, b: Shape)
    ensures Before([x] + a, [x] + b) <==> Before(a, b)
  {
    if Before(a, b) {
      BeforeCons(x, a, b);
    }
    if Before([x] + a, [x] + b) {
      BeforeUncons(x, a, b);
    }
  }

  lemma BeforeUncons(x: Seg, a: Shape, b: Shape)
    requires Before([x] + a, [x] + b)
    ensures Before(a, b)
  {
    var s, t := [x] + a, [x] + b;
    var i :| 0 <= i < |s| && i < |t| && s[..i] == t[..i] && s[i].Lit? && t[i].Par?;
    assert i > 0 && a == s[1..] && b == t[1..];
    assert a[..i - 1] == s[..i][1..] && b[..i - 1] == t[..i][1..];
    assert a[i - 1].Lit? && b[i - 1].Par?;
  }

  lemma BeforeHead(a: Shape, b: Shape)
    requires a != [] && b != [] && a[0] != b[0]
    ensures Before(a, b) <==> a[0].Lit? && b[0].Par?
  {
    forall i | 0 < i < |a| && i < |b| ensures a[..i] != b[..i] {
      assert a[..i][0] == a[0] && b[..i][0] == b[0];
    }
    assert a[..0] == b[..0];
  }

  // ---- what the pieces of a template are ----

  /** A parameter is a name in braces. */
  lemma ParamText(seg: string, name: string)
    ensures IsParam("{" + name + "}") && ParamName("{" + name + "}") == name
    ensures IsParam(seg) ==> seg == "{" + ParamName(seg) + "}"
  {
    assert ("{" + name + "}")[1..|name| + 1] == name;
  }

  function Slashes(n: nat): string {
    seq(n, i requires 0 <= i < n => '/')
  }

  /** Trimming takes off the slashes at both ends and nothing else. */
  lemma {:induction false} TrimExactly(p: string) returns (i: nat, j: nat)
    ensures p == Slashes(i) + TrimSlashes(p) + Slashes(j)
    ensures TrimSlashes(p) != "" ==> TrimSlashes(p)[0] != '/' && TrimSlashes(p)[|TrimSlashes(p)| - 1] != '/'
  {
    if p != "" && p[0] == '/' {
      i, j := TrimExactly(p[1..]);
      assert Slashes(i + 1) == ['/'] + Slashes(i);
      assert p == ['/'] + p[1..];
      OneMoreFront(Slashes(i), TrimSlashes(p), Slashes(j));
      i := i + 1;
    } else if p != "" && p[|p| - 1] == '/' {
      i, j := TrimExactly(p[..|p| - 1]);
      assert Slashes(j + 1) == Slashes(j) + ['/'];
      assert p == p[..|p| - 1] + ['/'];
      OneMoreBack(Slashes(i), TrimSlashes(p), Slashes(j));
      j := j + 1;
    } else {
      i, j := 0, 0;
    }
  }

  lemma OneMoreFront(a: string, b: string, c: string)
    ensures ['/'] + (a + b + c) == (['/'] + a) + b + c
  {
  }

  lemma OneMoreBack(a: string, b: string, c: string)
    ensures (a + b + c) + ['/'] == a + b + (c + ['/'])
  {
  }

  /** The k-th name and the k-th capture belong to one position of the template. */
  lemma {:induction false} NamedCapture(template: seq<string>, segs: seq<string>, i: nat)
    requires |template| == |segs| && i < |template| && IsParam(template[i])
    ensures var k := |NamesOf(template[..i])|;
      && k < |NamesOf(template)| == |Captures(ShapeOf(template), segs)|
      && NamesOf(template)[k] == ParamName(template[i]) && Captures(ShapeOf(template), segs)[k] == segs[i]
  {
    NamesMatchCaptures(template, segs);
    assert ShapeOf(template)[1..] == ShapeOf(template[1..]);
    if i > 0 {
      NamedCapture(template[1..], segs[1..], i - 1);
      assert template[..i][1..] == template[1..][..i - 1];
    } else {
      assert template[..0] == [];
    }
  }

  /** Every name stands at some position. */
  lemma {:induction false} NameStands(template: seq<string>, k: nat) returns (i: nat)
    requires k < |NamesOf(template)|
    ensures i < |template| && IsParam(template[i]) && |NamesOf(template[..i])| == k
  {
    if IsParam(template[0]) && k == 0 {
      i := 0;
      assert template[..0] == [];
    } else {
      i := NameStands(template[1..], if IsParam(template[0]) then k - 1 else k);
      assert template[..i + 1][1..] == template[1..][..i];
      i := i + 1;
    }
  }

  /** As many names as captures, so zipping them loses nothing. */
  lemma {:induction false} NamesMatchCaptures(template: seq<string>, segs: seq<string>)
    requires |template| == |segs|
    ensures |NamesOf(template)| == |Captures(ShapeOf(template), segs)|
  {
    if template != [] {
      NamesMatchCaptures(template[1..], segs[1..]);
      assert ShapeOf(template)[1..] == ShapeOf(template[1..]);
    }
  }

  lemma {:induction false} NamesAppend(a: seq<string>, b: seq<string>)
    ensures NamesOf(a + b) == NamesOf(a) + NamesOf(b)
  {
    if a == [] {
      assert a + b == b;
    } else {
      assert (a + b)[1..] == a[1..] + b;
      NamesAppend(a[1..], b);
    }
  }

  /** A parameter further left is counted earlier. */
  lemma NamedEarlier(template: seq<string>, i: nat, j: nat)
    requires i < j <= |template| && IsParam(template[i])
    ensures |NamesOf(template[..i])| < |NamesOf(template[..j])|
  {
    assert template[..j] == template[..i] + template[i..j];
    NamesAppend(template[..i], template[i..j]);
    assert template[i..j][0] == template[i];
  }

  // ---- the duplicate-detection key ----

  /** `normalise`'s segments: parameters lose their names. */
  function NormSegs(segs: seq<string>): (norm: seq<string>)
    ensures |norm| == |segs|
  {
    seq(|segs|, i requires 0 <= i < |segs| => if IsParam(segs[i]) then "{}" else segs[i])
  }

  function NormalForm(template: string): string {
    "/" + Join(NormSegs(SplitPath(template)))
  }

  lemma {:induction false} JoinNonempty(segs: seq<string>)
    requires |segs| >= 2 || (|segs| == 1 && segs[0] != "")
    ensures Join(segs) != ""
  {
  }

  lemma SplitPathJoins(p: string)
    ensures SplitPath(p) != [] ==> Join(SplitPath(p)) == TrimSlashes(p) != ""
    ensures forall s | s in SplitPath(p) :: '/' !in s
  {
    JoinSplit(TrimSlashes(p));
  }

  lemma NormRoundTrip(p: string)
    ensures SplitPath(p) == [] <==> Join(NormSegs(SplitPath(p))) == ""
    ensures SplitPath(p) != [] ==> Split(Join(NormSegs(SplitPath(p)))) == NormSegs(SplitPath(p))
  {
    var segs := SplitPath(p);
    SplitPathJoins(p);
    if segs != [] {
      forall s | s in NormSegs(segs) ensures '/' !in s {
        var i :| 0 <= i < |segs| && NormSegs(segs)[i] == s;
        assert segs[i] in segs;
      }
      SplitJoin(NormSegs(segs));
      if |segs| == 1 {
        assert Join(segs) == segs[0];
      }
      JoinNonempty(NormSegs(segs));
    }
  }

  lemma SegmentsAgree(a: seq<string>, b: seq<string>)
    ensures NormSegs(a) == NormSegs(b) <==> ShapeOf(a) == ShapeOf(b)
  {
    if NormSegs(a) == NormSegs(b) {
      forall i | 0 <= i < |a| ensures SegOf(a[i]) == SegOf(b[i]) {
        assert NormSegs(a)[i] == NormSegs(b)[i];
      }
    }
    if ShapeOf(a) == ShapeOf(b) {
      forall i | 0 <= i < |a| ensures NormSegs(a)[i] == NormSegs(b)[i] {
        assert ShapeOf(a)[i] == ShapeOf(b)[i];
      }
    }
  }

  lemma NormalFormDecides(s: string, t: string)
    ensures NormalForm(s) == NormalForm(t) <==> NormSegs(SplitPath(s)) == NormSegs(SplitPath(t))
  {
    var a, b := NormSegs(SplitPath(s)), NormSegs(SplitPath(t));
    if NormalForm(s) == NormalForm(t) {
      assert Join(a) == NormalForm(s)[1..] && Join(b) == NormalForm(t)[1..];
      NormRoundTrip(s);
      NormRoundTrip(t);
    }
  }

  /** Equal normal forms are equal shapes: no literal segment looks like a parameter. */
  lemma NormaliseIsShape(s: string, t: string)
    ensures NormalForm(s) == NormalForm(t) <==> TemplateShape(s) == TemplateShape(t)
  {
    NormalFormDecides(s, t);
    SegmentsAgree(SplitPath(s), SplitPath(t));
  }

  function TemplateKey(verb: string, template: string): string {
    verb + " " + NormalForm(template)
  }

  lemma TemplateKeyInjective(v: string, s: string, w: string, t: string)
    requires ' ' !in v && ' ' !in w && TemplateKey(v, s) == TemplateKey(w, t)
    ensures v == w && TemplateShape(s) == TemplateShape(t)
  {
    IndexOfPrefix(v, ' ', NormalForm(s));
    IndexOfPrefix(w, ' ', NormalForm(t));
    var k := TemplateKey(v, s);
    assert k == v + [' '] + NormalForm(s) && k == w + [' '] + NormalForm(t);
    assert k[..|v|] == v && k[..|w|] == w;
    assert k[|v| + 1..] == NormalForm(s) && k[|w| + 1..] == NormalForm(t);
    NormaliseIsShape(s, t);
  }
}
