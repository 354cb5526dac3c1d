/** From a match back to an upstream path: the captured parameters, written into the
    upstream template. */
module Substitute {
  import opened Wrappers
  import opened Text
  import opened Paths
  import opened Escaping
  import R = Router

  /** `Params.Get`: the first parameter of that name. */
  function Get(params: seq<R.Param>, name: string): (v: Option<string>)
    ensures v.None? <==> forall i | 0 <= i < |params| :: params[i].name != name
    ensures v.Some? ==> exists i :: IsFirst(params, name, i) && params[i].value == v.value
  {
    if params == [] then None
    else if params[0].name == name then assert IsFirst(params, name, 0); Some(params[0].value)
    else
      var v := Get(params[1..], name);
      assert v.Some? ==> exists i :: IsFirst(params, name, i) && params[i].value == v.value by {
        if v.Some? {
          var i :| IsFirst(params[1..], name, i) && params[1..][i].value == v.value;
          assert IsFirst(params, name, i + 1);
        }
      }
      v
  }

  predicate IsFirst(params: seq<R.Param>, name: string, i: int) {
    0 <= i < |params| && params[i].name == name && forall j | 0 <= j < i :: params[j].name != name
  }

  predicate BytesIn(params: seq<R.Param>) {
    forall i | 0 <= i < |params| :: IsBytes(params[i].value)
  }

  /** What stands in one segment once the parameters are filled in. */
  function Filled(seg: string, params: seq<R.Param>): string
    requires BytesIn(params)
  {
    if IsParam(seg) && Get(params, ParamName(seg)).Some? then PathEscape(Get(params, ParamName(seg)).value)
    else seg
  }

  function FilledAll(pieces: seq<string>, params: seq<R.Param>): (segs: seq<string>)
    requires BytesIn(params)
    ensures |segs| == |pieces|
  {
    seq(|pieces|, i requires 0 <= i < |pieces| => Filled(pieces[i], params))
  }

  /** `substituteParams`: each parameter segment that was captured is overwritten. */
  method SubstituteParams(tmpl: string, params: seq<R.Param>) returns (out: string)
    requires BytesIn(params)
    ensures var filled := Join(FilledAll(Split(tmpl), params)); out == if filled == "" then "/" else filled
  {
    var pieces := Split(tmpl);
    var segs := new string[|pieces|](i requires 0 <= i < |pieces| => pieces[i]);
    for i := 0 to segs.Length
      invariant forall j | 0 <= j < i :: segs[j] == Filled(pieces[j], params)
      invariant forall j | i <= j < segs.Length :: segs[j] == pieces[j]
    {
      if !IsParam(segs[i]) {
        continue;
      }
      var v := Get(params, ParamName(segs[i]));
      if v.Some? {
        segs[i] := PathEscape(v.value);
      }
    }
    assert segs[..] == FilledAll(pieces, params);
    out := Join(segs[..]);
    if out == "" {
      out := "/";
    }
  }

  /** `proxyHandler`: with nothing captured the template goes out as it stands. */
  method UpstreamPath(tmpl: string, params: seq<R.Param>) returns (out: string)
    requires BytesIn(params)
    ensures tmpl != "" && NoneEmpty(params) ==> Faithful(tmpl, params, out)
    ensures tmpl == "" ==> out == if params == [] then "" else "/"
  {
    if params == [] {
      return tmpl;
    }
    out := SubstituteParams(tmpl, params);
    if tmpl != "" && NoneEmpty(params) {
      FilledIsFaithful(tmpl, params);
    } else if tmpl == "" {
      assert Split(tmpl) == [""];
    }
  }

  predicate NoneEmpty(params: seq<R.Param>) {
    forall i | 0 <= i < |params| :: params[i].value != ""
  }

  /** Same segments, literals untouched, and each captured parameter replaced by one segment
      that decodes to its value. */
  predicate Faithful(tmpl: string, params: seq<R.Param>, out: string) {
    && |Split(out)| == |Split(tmpl)|
    && forall i | 0 <= i < |Split(tmpl)| :: FaithfulAt(Split(tmpl)[i], params, Split(out)[i])
  }

  predicate FaithfulAt(seg: string, params: seq<R.Param>, sent: string) {
    if IsParam(seg) && Get(params, ParamName(seg)).Some?
    then !IsParam(sent) && PathUnescape(sent) == Get(params, ParamName(seg))
    else sent == seg
  }

  lemma FilledIsFaithful(tmpl: string, params: seq<R.Param>)
    requires BytesIn(params) && NoneEmpty(params) && tmpl != ""
    ensures Join(FilledAll(Split(tmpl), params)) != ""
    ensures Faithful(tmpl, params, Join(FilledAll(Split(tmpl), params)))
  {
    var pieces := Split(tmpl);
    JoinSplit(tmpl);
    assert |pieces| == 1 ==> Join(pieces) == pieces[0];
    SegmentsFilled(pieces, params);
    SplitJoin(FilledAll(pieces, params));
    JoinNonempty(FilledAll(pieces, params));
  }

  lemma SegmentsFilled(pieces: seq<string>, params: seq<R.Param>)
    requires BytesIn(params) && NoneEmpty(params) && forall p | p in pieces :: '/' !in p
    ensures var segs := FilledAll(pieces, params);
      && (forall s | s in segs :: '/' !in s)
      && (forall i | 0 <= i < |pieces| :: FaithfulAt(pieces[i], params, segs[i]) && (pieces[i] != "" ==> segs[i] != ""))
  {
    var segs := FilledAll(pieces, params);
    forall i | 0 <= i < |pieces|
      ensures '/' !in segs[i] && FaithfulAt(pieces[i], params, segs[i]) && (pieces[i] != "" ==> segs[i] != "")
    {
      FilledAt(pieces[i], params);
    }
  }

  lemma FilledAt(seg: string, params: seq<R.Param>)
    requires BytesIn(params) && NoneEmpty(params) && '/' !in seg
    ensures '/' !in Filled(seg, params) && FaithfulAt(seg, params, Filled(seg, params))
    ensures seg != "" ==> Filled(seg, params) != ""
  {
    if IsParam(seg) && Get(params, ParamName(seg)).Some? {
      var v := Get(params, ParamName(seg)).value;
      EscapedIsOneSegment(v);
      UnescapeInvertsEscape(v);
      assert PathEscape(v) != "" ==> PathEscape(v)[0] in PathEscape(v);
    }
  }

  // ---- parameters of a template ----

  /** `templateParams`. */
  function TemplateParams(p: string): set<string> {
    set s | s in Split(p) && IsParam(s) :: ParamName(s)
  }

  lemma JoinTwice(x: string, y: string, z: string)
    ensures (x + "/" + y) + "/" + z == x + "/" + (y + "/" + z)
  {
  }

  lemma HeadFirst<A>(s: seq<A>, t: seq<A>)
    requires s != []
    ensures s + t == [s[0]] + (s[1..] + t)
  {
  }

  lemma {:induction false} JoinedSplit(pieces: seq<string>, b: string)
    requires pieces != [] && forall p | p in pieces :: '/' !in p
    ensures Split(Join(pieces) + "/" + b) == pieces + Split(b)
  {
    if |pieces| == 1 {
      SplitCons(pieces[0], b);
    } else {
      var rest := Join(pieces[1..]);
      JoinTwice(pieces[0], rest, b);
      SplitCons(pieces[0], rest + "/" + b);
      JoinedSplit(pieces[1..], b);
      HeadFirst(pieces, Split(b));
    }
  }

  lemma SplitConcat(a: string, b: string)
    ensures Split(a + "/" + b) == Split(a) + Split(b)
  {
    JoinSplit(a);
    JoinedSplit(Split(a), b);
  }

  lemma {:induction false} TrimKeepsParams(p: string)
    ensures TemplateParams(p) == TemplateParams(TrimSlashes(p))
  {
    if p != "" && p[0] == '/' {
      TrimKeepsParams(p[1..]);
      assert p == "" + "/" + p[1..];
      SplitConcat("", p[1..]);
    } else if p != "" && p[|p| - 1] == '/' {
      TrimKeepsParams(p[..|p| - 1]);
      assert p == p[..|p| - 1] + "/" + "";
      SplitConcat(p[..|p| - 1], "");
    }
  }

  lemma {:induction false} NamesAre(segs: seq<string>, name: string)
    ensures name in NamesOf(segs) <==> exists s :: s in segs && IsParam(s) && ParamName(s) == name
  {
    if segs != [] {
      NamesAre(segs[1..], name);
      assert segs == [segs[0]] + segs[1..];
    }
  }

  /** The check and the router read the same names off a template. */
  lemma TemplateParamsAreNames(p: string, name: string)
    ensures name in TemplateParams(p) <==> name in NamesOf(SplitPath(p))
  {
    TrimKeepsParams(p);
    NamesAre(SplitPath(p), name);
    if TrimSlashes(p) == "" {
      assert Split("") == [""];
    }
  }

  // ---- match, then substitute ----

  /** A route whose upstream parameters its gateway template provides, matched and filled in:
      literals untouched, nothing left open, and for every parameter what the request has at the
      first place of that name. */
  ghost predicate Carried(upstream: string, template: string, segs: seq<string>, out: string) {
    && |Split(out)| == |Split(upstream)|
    && |SplitPath(template)| == |segs|
    && forall i | 0 <= i < |Split(upstream)| ::
         && !IsParam(Split(out)[i])
         && (if IsParam(Split(upstream)[i])
             then CarriedAt(Split(upstream)[i], SplitPath(template), segs, Split(out)[i])
             else Split(out)[i] == Split(upstream)[i])
  }

  /** The first segment of the gateway template that reads `seg`, and what came in there. */
  ghost predicate CarriedAt(seg: string, template: seq<string>, segs: seq<string>, sent: string)
    requires |template| == |segs|
  {
    exists j :: 0 <= j < |template| && template[j] == seg && seg !in template[..j] && SentFor(segs[j], sent)
  }

  /** What is sent decodes to the same bytes, or to the segment itself where that encodes
      nothing. */
  predicate SentFor(raw: string, sent: string) {
    if PathUnescape(raw).Some? then PathUnescape(sent) == PathUnescape(raw) else PathUnescape(sent) == Some(raw)
  }

  /** The place of a parameter that is the first of its name. */
  lemma FirstStands(template: seq<string>, segs: seq<string>, name: string, k: nat) returns (j: nat)
    requires |template| == |segs| && k < |NamesOf(template)|
    requires NamesOf(template)[k] == name && name !in NamesOf(template)[..k]
    ensures j < |template| && template[j] == "{" + name + "}" && template[j] !in template[..j]
    ensures k < |Captures(ShapeOf(template), segs)| && Captures(ShapeOf(template), segs)[k] == segs[j]
  {
    j := NameStands(template, k);
    NamedCapture(template, segs, j);
    ParamText(template[j], name);
    forall i | 0 <= i < j ensures template[i] != template[j] {
      if template[i] == template[j] {
        NamedCapture(template, segs, i);
        NamedEarlier(template, i, j);
      }
    }
  }

  lemma MatchThenSubstitute<T>(r: R.Route<T>, escapedPath: string, a: R.Answer<T>, upstream: string, out: string)
    requires IsBytes(escapedPath) && upstream != ""
    requires TemplateParams(upstream) <= TemplateParams(r.template)
    requires Fits(R.RouteShape(r), SplitPath(escapedPath)) && R.AnswersFrom(r, SplitPath(escapedPath), a)
    requires Faithful(upstream, a.params, out)
    ensures Carried(upstream, r.template, SplitPath(escapedPath), out)
  {
    var segs := SplitPath(escapedPath);
    forall i | 0 <= i < |Split(upstream)| && IsParam(Split(upstream)[i])
      ensures CarriedAt(Split(upstream)[i], SplitPath(r.template), segs, Split(out)[i]) && !IsParam(Split(out)[i])
    {
      var seg := Split(upstream)[i];
      assert ParamName(seg) in TemplateParams(upstream);
      assert FaithfulAt(seg, a.params, Split(out)[i]);
      ParameterCarried(r, segs, a, seg, Split(out)[i]);
    }
    forall i | 0 <= i < |Split(upstream)| && !IsParam(Split(upstream)[i])
      ensures !IsParam(Split(out)[i]) && Split(out)[i] == Split(upstream)[i]
    {
      assert FaithfulAt(Split(upstream)[i], a.params, Split(out)[i]);
    }
  }

  lemma ParameterCarried<T>(r: R.Route<T>, segs: seq<string>, a: R.Answer<T>, seg: string, sent: string)
    requires R.AnswersFrom(r, segs, a) && IsParam(seg) && ParamName(seg) in TemplateParams(r.template)
    requires FaithfulAt(seg, a.params, sent)
    ensures CarriedAt(seg, SplitPath(r.template), segs, sent) && !IsParam(sent)
  {
    var template, name := SplitPath(r.template), ParamName(seg);
    var names := NamesOf(template);
    TemplateParamsAreNames(r.template, name);
    var k :| 0 <= k < |names| && names[k] == name;
    assert a.params[k].name == name;
    var j :| IsFirst(a.params, name, j) && a.params[j].value == Get(a.params, name).value;
    assert name !in names[..j] by {
      assert forall i | 0 <= i < j :: names[i] == a.params[i].name;
    }
    var at := FirstStands(template, segs, name, j);
    ParamText(seg, name);
  }

  /** What a match captures is never empty and stays bytes, so it can be sent on. */
  lemma MatchedParamsFit<T>(r: R.Route<T>, escapedPath: string, a: R.Answer<T>)
    requires IsBytes(escapedPath)
    requires Fits(R.RouteShape(r), SplitPath(escapedPath)) && R.AnswersFrom(r, SplitPath(escapedPath), a)
    ensures BytesIn(a.params) && NoneEmpty(a.params)
  {
    var segs := SplitPath(escapedPath);
    forall s | s in segs ensures IsBytes(s) {
      PiecesAreBytes(escapedPath, s);
    }
    forall i | 0 <= i < |a.params| ensures IsBytes(a.params[i].value) && a.params[i].value != "" {
      var v := Captures(R.RouteShape(r), segs)[i];
      CapturedWhere(R.RouteShape(r), segs, v);
      if PathUnescape(v).Some? {
        UnescapeKeepsBytes(v);
      }
    }
  }

  lemma {:induction false} CapturedWhere(shape: Shape, segs: seq<string>, v: string)
    requires |shape| == |segs| && v in Captures(shape, segs)
    ensures exists i :: 0 <= i < |segs| && shape[i].Par? && segs[i] == v
  {
    if !(shape[0].Par? && segs[0] == v) {
      CapturedWhere(shape[1..], segs[1..], v);
      var i :| 0 <= i < |segs[1..]| && shape[1..][i].Par? && segs[1..][i] == v;
      assert shape[i + 1].Par? && segs[i + 1] == v;
    }
  }

  lemma {:induction false} TrimIsBytes(p: string)
    requires IsBytes(p)
    ensures IsBytes(TrimSlashes(p))
  {
    if p != "" && p[0] == '/' {
      TrimIsBytes(p[1..]);
    } else if p != "" && p[|p| - 1] == '/' {
      TrimIsBytes(p[..|p| - 1]);
    }
  }

  lemma {:induction false} SplitIsBytes(p: string, s: string)
    requires IsBytes(p) && s in Split(p)
    ensures IsBytes(s)
  {
    var i := IndexOf(p, '/');
    if i < |p| && s != p[..i] {
      SplitIsBytes(p[i + 1..], s);
    }
  }

  lemma PiecesAreBytes(p: string, s: string)
    requires IsBytes(p) && s in SplitPath(p)
    ensures IsBytes(s)
  {
    TrimIsBytes(p);
    SplitIsBytes(TrimSlashes(p), s);
  }
}
