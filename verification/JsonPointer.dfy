/** Component references: `#/components/<section>/<name>[/<tail>]`, with the token
    escaping of sections 3 and 4 of RFC 6901. */
module JsonPointer {
  import opened Text
  import opened Wrappers

  const PREFIX: string := "#/components/"

  datatype CompId = CompId(section: string, name: string)

  datatype Ref = Ref(id: CompId, tail: string)

  function Escape(s: string): string {
    ReplaceAll(ReplaceAll(s, "~", "~0"), "/", "~1")
  }

  function Unescape(s: string): string {
    ReplaceAll(ReplaceAll(s, "~1", "/"), "~0", "~")
  }

  function ComponentRef(id: CompId): string {
    PREFIX + id.section + "/" + Escape(id.name)
  }

  /** A reference as the merger writes it: the component, then the tail if any. */
  function RefText(id: CompId, tail: string): string {
    if tail == "" then ComponentRef(id) else ComponentRef(id) + "/" + tail
  }

  function ParseLocalRef(ref: string): Option<Ref> {
    if HasPrefix(ref, PREFIX) then ParsePointer(ref[|PREFIX|..]) else None
  }

  /** `<section>/<name>[/<tail>]`, behind the prefix. */
  function ParsePointer(rest: string): Option<Ref> {
    var i := IndexOf(rest, '/');
    if i == |rest| || i == 0 || i == |rest| - 1 then None else ParseName(rest[..i], rest[i + 1..])
  }

  function ParseName(section: string, after: string): Option<Ref> {
    var j := IndexOf(after, '/');
    var name := after[..j];
    var tail := if j < |after| then after[j + 1..] else "";
    if name == "" then None else Some(Ref(CompId(section, Unescape(name)), tail))
  }

  /** The ids a parsed reference can have. */
  predicate WellFormed(id: CompId) {
    id.section != "" && '/' !in id.section && id.name != ""
  }

  // ---- escaping, character by character ----

  function EscapeChar(c: char): string {
    if c == '~' then "~0" else if c == '/' then "~1" else [c]
  }

  function EscapeEach(s: string): string {
    if s == "" then "" else EscapeChar(s[0]) + EscapeEach(s[1..])
  }

  lemma {:induction false} EscapeIsPerChar(s: string)
    ensures Escape(s) == EscapeEach(s)
  {
    if s != "" {
      EscapeIsPerChar(s[1..]);
      var once := ReplaceAll(s[1..], "~", "~0");
      if s[0] == '~' {
        assert s[..1] == "~";
        var t := "~0" + once;
        assert t[1..] == "0" + once;
        assert t[1..][1..] == once;
        assert ReplaceAll(t[1..], "/", "~1") == "0" + ReplaceAll(once, "/", "~1");
      } else {
        assert s[..1] == [s[0]] && s[..1] != "~";
        var t := [s[0]] + once;
        assert t[1..] == once && t[..1] == [s[0]];
      }
    }
  }

  /** After the first pass of Unescape over an escaped string only `~` is still encoded. */
  function TildeEach(s: string): string {
    if s == "" then "" else (if s[0] == '~' then "~0" else [s[0]]) + TildeEach(s[1..])
  }

  lemma ReplaceHit(pat: string, sub: string, rest: string)
    requires |pat| == 2
    ensures ReplaceAll(pat + rest, pat, sub) == sub + ReplaceAll(rest, pat, sub)
  {
    assert (pat + rest)[..2] == pat && (pat + rest)[2..] == rest;
  }

  lemma ReplaceMiss(c: char, pat: string, sub: string, rest: string)
    requires |pat| == 2 && c != pat[0]
    ensures ReplaceAll([c] + rest, pat, sub) == [c] + ReplaceAll(rest, pat, sub)
  {
    var s := [c] + rest;
    assert s[1..] == rest;
    if |s| >= 2 {
      assert s[..2][0] == c;
    } else {
      assert rest == "";
    }
  }

  /** An encoded tilde is left alone by the pass that decodes slashes. */
  lemma ReplaceTilde(rest: string)
    ensures ReplaceAll("~0" + rest, "~1", "/") == "~0" + ReplaceAll(rest, "~1", "/")
  {
    var s := "~0" + rest;
    assert s[..2] == "~0" && s[1..] == "0" + rest && s[0] == '~';
    ReplaceMiss('0', "~1", "/", rest);
    assert ["~0"[0]] + ("0" + ReplaceAll(rest, "~1", "/")) == "~0" + ReplaceAll(rest, "~1", "/");
  }

  lemma {:induction false} FirstPass(s: string)
    ensures ReplaceAll(EscapeEach(s), "~1", "/") == TildeEach(s)
  {
    if s != "" {
      FirstPass(s[1..]);
      var rest := EscapeEach(s[1..]);
      if s[0] == '~' {
        ReplaceTilde(rest);
      } else if s[0] == '/' {
        ReplaceHit("~1", "/", rest);
      } else {
        ReplaceMiss(s[0], "~1", "/", rest);
      }
    }
  }

  lemma {:induction false} SecondPass(s: string)
    ensures ReplaceAll(TildeEach(s), "~0", "~") == s
  {
    if s != "" {
      SecondPass(s[1..]);
      var rest := TildeEach(s[1..]);
      if s[0] == '~' {
        ReplaceHit("~0", "~", rest);
      } else {
        ReplaceMiss(s[0], "~0", "~", rest);
      }
      assert [s[0]] + s[1..] == s;
    }
  }

  /** Unescaping undoes escaping, for every component name. */
  lemma UnescapeEscape(s: string)
    ensures Unescape(Escape(s)) == s
  {
    EscapeIsPerChar(s);
    FirstPass(s);
    SecondPass(s);
  }

  lemma {:induction false} EscapedHasNoSlash(s: string)
    ensures '/' !in Escape(s)
    ensures s != "" ==> Escape(s) != ""
  {
    EscapeIsPerChar(s);
    if s != "" {
      EscapeIsPerChar(s[1..]);
      EscapedHasNoSlash(s[1..]);
    }
  }

  lemma {:induction false} UnescapeNonempty(s: string)
    requires s != ""
    ensures Unescape(s) != ""
  {
  }

  /** What the parser accepts is always an id the merger can publish. */
  lemma ParsedIsWellFormed(ref: string)
    requires ParseLocalRef(ref).Some?
    ensures WellFormed(ParseLocalRef(ref).value.id)
  {
    var rest := ref[|PREFIX|..];
    var i := IndexOf(rest, '/');
    var after := rest[i + 1..];
    UnescapeNonempty(after[..IndexOf(after, '/')]);
  }

  /** The parser cuts `<section>/<escaped name>[/<tail>]` at the right slashes. */
  lemma CutName(name: string, tail: string)
    requires '/' !in name
    ensures var after := if tail == "" then name else name + "/" + tail;
            var j := IndexOf(after, '/');
            after[..j] == name && (if j < |after| then after[j + 1..] else "") == tail
  {
    IndexOfPrefix(name, '/', tail);
    if tail != "" {
      var after := name + "/" + tail;
      assert after == name + ['/'] + tail;
      assert after[|name| + 1..] == tail;
    }
  }

  lemma CutSection(section: string, after: string)
    requires '/' !in section
    ensures var rest := section + "/" + after;
            var i := IndexOf(rest, '/');
            i == |section| && rest[..i] == section && rest[i + 1..] == after
  {
    IndexOfPrefix(section, '/', after);
    assert section + "/" + after == section + ['/'] + after;
  }

  lemma DropPrefix(prefix: string, rest: string)
    ensures HasPrefix(prefix + rest, prefix) && (prefix + rest)[|prefix|..] == rest
  {
  }

  function AfterSection(id: CompId, tail: string): string {
    if tail == "" then Escape(id.name) else Escape(id.name) + "/" + tail
  }

  lemma Regrouped(prefix: string, section: string, name: string, tail: string)
    ensures prefix + section + "/" + name == prefix + (section + "/" + name)
    ensures prefix + section + "/" + name + "/" + tail == prefix + (section + "/" + (name + "/" + tail))
  {
  }

  lemma RefTextIs(id: CompId, tail: string)
    ensures RefText(id, tail) == PREFIX + (id.section + "/" + AfterSection(id, tail))
  {
    Regrouped(PREFIX, id.section, Escape(id.name), tail);
  }

  lemma ParseNameText(section: string, name: string, tail: string)
    requires name != ""
    ensures ParseName(section, if tail == "" then Escape(name) else Escape(name) + "/" + tail)
            == Some(Ref(CompId(section, name), tail))
  {
    EscapedHasNoSlash(name);
    CutName(Escape(name), tail);
    UnescapeEscape(name);
  }

  lemma ParseSection(section: string, after: string)
    requires section != "" && '/' !in section && after != ""
    ensures ParsePointer(section + "/" + after) == ParseName(section, after)
  {
    CutSection(section, after);
  }

  lemma ParsePointerText(id: CompId, tail: string)
    requires WellFormed(id)
    ensures ParsePointer(id.section + "/" + AfterSection(id, tail)) == Some(Ref(id, tail))
  {
    EscapedHasNoSlash(id.name);
    ParseSection(id.section, AfterSection(id, tail));
    ParseNameText(id.section, id.name, tail);
  }

  /** Parsing inverts printing, tail included. */
  lemma ParseRefText(id: CompId, tail: string)
    requires WellFormed(id)
    ensures ParseLocalRef(RefText(id, tail)) == Some(Ref(id, tail))
  {
    RefTextIs(id, tail);
    DropPrefix(PREFIX, id.section + "/" + AfterSection(id, tail));
    ParsePointerText(id, tail);
  }

  lemma RefTextInjective(a: CompId, s: string, b: CompId, t: string)
    requires WellFormed(a) && WellFormed(b)
    requires RefText(a, s) == RefText(b, t)
    ensures a == b && s == t
  {
    ParseRefText(a, s);
    ParseRefText(b, t);
  }

  // ---- what these come to ----

  /** Escaping goes character by character, and only `~` and `/` are written otherwise. */
  lemma EscapeExactly(a: string, b: string, c: char)
    ensures Escape("") == "" && Escape("~") == "~0" && Escape("/") == "~1"
    ensures c != '~' && c != '/' ==> Escape([c]) == [c]
    ensures Escape(a + b) == Escape(a) + Escape(b)
  {
    EscapeIsPerChar("");
    EscapeOne('~');
    EscapeOne('/');
    EscapeOne(c);
    EscapeIsPerChar(a);
    EscapeIsPerChar(b);
    EscapeIsPerChar(a + b);
    EscapeJoins(a, b);
  }

  lemma EscapeOne(c: char)
    ensures Escape([c]) == EscapeChar(c)
  {
    EscapeIsPerChar([c]);
    assert [c][1..] == "" && EscapeEach("") == "";
  }

  lemma HeadOff(a: string, b: string)
    requires a != ""
    ensures a + b != "" && (a + b)[0] == a[0] && (a + b)[1..] == a[1..] + b
  {
  }

  lemma ThreeParts(a: string, b: string, c: string)
    ensures a + (b + c) == (a + b) + c
  {
  }

  lemma {:induction false} EscapeJoins(a: string, b: string)
    ensures EscapeEach(a + b) == EscapeEach(a) + EscapeEach(b)
  {
    if a == "" {
      assert a + b == b;
    } else {
      EscapeJoins(a[1..], b);
      HeadOff(a, b);
      ThreeParts(EscapeChar(a[0]), EscapeEach(a[1..]), EscapeEach(b));
    }
  }

  /** The text of a local reference, its name still escaped. */
  predicate Points(t: string, section: string, raw: string, tail: string) {
    && section != "" && '/' !in section && raw != "" && '/' !in raw
    && (t == "#/components/" + section + "/" + raw + "/" + tail
        || (tail == "" && t == "#/components/" + section + "/" + raw))
  }

  lemma CutRaw(section: string, raw: string, rest: string)
    requires raw != "" && '/' !in raw
    ensures ParseName(section, raw) == Some(Ref(CompId(section, Unescape(raw)), ""))
    ensures ParseName(section, raw + "/" + rest) == Some(Ref(CompId(section, Unescape(raw)), rest))
  {
    IndexOfPrefix(raw, '/', rest);
    assert raw + "/" + rest == raw + ['/'] + rest;
    assert (raw + "/" + rest)[..|raw|] == raw && (raw + "/" + rest)[|raw| + 1..] == rest;
    assert raw[..|raw|] == raw;
  }

  lemma PointedParses(t: string, section: string, raw: string, tail: string)
    requires Points(t, section, raw, tail)
    ensures ParseLocalRef(t) == Some(Ref(CompId(section, Unescape(raw)), tail))
  {
    Regrouped(PREFIX, section, raw, tail);
    CutRaw(section, raw, tail);
    if t == PREFIX + (section + "/" + raw) {
      ParseAfter(section, raw);
    } else {
      ParseAfter(section, raw + "/" + tail);
    }
  }

  lemma ParseAfter(section: string, after: string)
    requires section != "" && '/' !in section && after != ""
    ensures ParseLocalRef(PREFIX + (section + "/" + after)) == ParseName(section, after)
  {
    DropPrefix(PREFIX, section + "/" + after);
    ParseSection(section, after);
  }

  /** The raw name in front of the tail. */
  lemma NameParsed(section: string, after: string) returns (raw: string)
    requires ParseName(section, after).Some?
    ensures raw != "" && '/' !in raw
    ensures var ref := ParseName(section, after).value;
            && ref.id == CompId(section, Unescape(raw))
            && (after == raw + "/" + ref.tail || (ref.tail == "" && after == raw))
  {
    var j := IndexOf(after, '/');
    raw := after[..j];
    if j < |after| {
      CutAt(after, j);
    } else {
      assert after[..j] == after;
    }
  }

  lemma ParsedPoints(t: string) returns (raw: string)
    requires ParseLocalRef(t).Some?
    ensures var ref := ParseLocalRef(t).value; Points(t, ref.id.section, raw, ref.tail) && Unescape(raw) == ref.id.name
  {
    var rest := t[|PREFIX|..];
    var i := IndexOf(rest, '/');
    assert t == PREFIX + rest;
    CutAt(rest, i);
    raw := NameParsed(rest[..i], rest[i + 1..]);
    Regrouped(PREFIX, rest[..i], raw, ParseLocalRef(t).value.tail);
  }

  /** The printer writes such a text, and the shorter one for a whole component. */
  lemma PrintExactly(id: CompId, tail: string)
    requires WellFormed(id)
    ensures Points(RefText(id, tail), id.section, Escape(id.name), tail)
    ensures tail == "" ==> RefText(id, tail) == "#/components/" + id.section + "/" + Escape(id.name)
  {
    EscapedHasNoSlash(id.name);
  }

  /** The parser accepts exactly such texts. */
  lemma ParseExactly(t: string, id: CompId, tail: string)
    ensures ParseLocalRef(t) == Some(Ref(id, tail)) <==>
            exists raw :: Points(t, id.section, raw, tail) && Unescape(raw) == id.name
  {
    if raw :| Points(t, id.section, raw, tail) && Unescape(raw) == id.name {
      PointedParses(t, id.section, raw, tail);
    }
    if ParseLocalRef(t) == Some(Ref(id, tail)) {
      var raw := ParsedPoints(t);
    }
  }
}
