/** The string helpers the gateway leans on, as functions on sequences of characters.
    Go strings are byte strings; a `char` here stands for one byte. */
module Text {

  /** `strings.ReplaceAll`: every non-overlapping occurrence, left to right. */
  function ReplaceAll(s: string, pat: string, sub: string): string
    requires |pat| > 0
  {
    if |s| < |pat| then s
    else if s[..|pat|] == pat then sub + ReplaceAll(s[|pat|..], pat, sub)
    else [s[0]] + ReplaceAll(s[1..], pat, sub)
  }

  /** Position of the first `c`, or the length when there is none. */
  function IndexOf(s: string, c: char): (i: nat)
    ensures i <= |s|
    ensures c !in s[..i]
    ensures i < |s| ==> s[i] == c
  {
    if s == [] || s[0] == c then 0 else
      var i := 1 + IndexOf(s[1..], c);
      assert s[..i] == [s[0]] + s[1..][..i - 1];
      i
  }

  lemma {:induction false} IndexOfPrefix(a: string, c: char, b: string)
    requires c !in a
    ensures IndexOf(a + [c] + b, c) == |a|
    ensures IndexOf(a, c) == |a|
  {
    if a != "" {
      IndexOfPrefix(a[1..], c, b);
      assert (a + [c] + b)[1..] == a[1..] + [c] + b;
    }
  }

  predicate HasPrefix(s: string, p: string) {
    |p| <= |s| && s[..|p|] == p
  }

  /** `strings.Split(s, "/")`: one more piece than there are slashes. */
  function Split(s: string): (pieces: seq<string>)
    ensures |pieces| > 0
    ensures forall p | p in pieces :: '/' !in p
  {
    var i := IndexOf(s, '/');
    if i == |s| then assert s[..i] == s; [s] else [s[..i]] + Split(s[i + 1..])
  }

  /** `strings.Join(pieces, "/")`. */
  function Join(pieces: seq<string>): string {
    if |pieces| == 0 then ""
    else if |pieces| == 1 then pieces[0]
    else pieces[0] + "/" + Join(pieces[1..])
  }

  lemma {:induction false} SplitJoin(pieces: seq<string>)
    requires |pieces| > 0 && forall p | p in pieces :: '/' !in p
    ensures Split(Join(pieces)) == pieces
  {
    if |pieces| == 1 {
      assert pieces == [pieces[0]];
      IndexOfPrefix(pieces[0], '/', "");
    } else {
      SplitCons(pieces[0], Join(pieces[1..]));
      SplitJoin(pieces[1..]);
      assert pieces == [pieces[0]] + pieces[1..];
    }
  }

  lemma SplitCons(x: string, rest: string)
    requires '/' !in x
    ensures Split(x + "/" + rest) == [x] + Split(rest)
  {
    IndexOfPrefix(x, '/', rest);
    var s := x + "/" + rest;
    assert s[..|x|] == x && s[|x| + 1..] == rest;
  }

  lemma JoinCons(x: string, pieces: seq<string>)
    requires |pieces| > 0
    ensures Join([x] + pieces) == x + "/" + Join(pieces)
  {
    assert ([x] + pieces)[1..] == pieces;
  }

  lemma CutAt(s: string, i: nat)
    requires i < |s| && s[i] == '/'
    ensures s == s[..i] + "/" + s[i + 1..]
  {
  }

  lemma {:induction false} JoinSplit(s: string)
    ensures Join(Split(s)) == s
  {
    var i := IndexOf(s, '/');
    if i < |s| {
      var rest := s[i + 1..];
      JoinSplit(rest);
      JoinCons(s[..i], Split(rest));
      CutAt(s, i);
    }
  }

  function Digit(d: nat): char
    requires d < 10
  {
    '0' + d as char
  }

  /** `strconv.Itoa` on naturals. */
  function Itoa(n: nat): (s: string)
    ensures |s| > 0
  {
    if n < 10 then [Digit(n)] else Itoa(n / 10) + [Digit(n % 10)]
  }

  lemma {:induction false} ItoaInjective(m: nat, n: nat)
    requires Itoa(m) == Itoa(n)
    ensures m == n
  {
    if m < 10 && n < 10 {
      assert Itoa(m)[0] == Itoa(n)[0];
    } else if m >= 10 && n >= 10 {
      var a, b := Itoa(m / 10), Itoa(n / 10);
      assert Itoa(m)[|a|] == Itoa(n)[|b|];
      assert a == Itoa(m)[..|a|] && b == Itoa(n)[..|b|];
      ItoaInjective(m / 10, n / 10);
    }
  }

  function UpperChar(c: char): char {
    if 'a' <= c <= 'z' then c - 32 as char else c
  }

  /** `strings.ToUpper` on the ASCII methods the gateway deals in. */
  function ToUpper(s: string): (u: string)
    ensures |u| == |s|
    ensures forall i | 0 <= i < |s| :: u[i] == UpperChar(s[i])
  {
    if s == "" then "" else [UpperChar(s[0])] + ToUpper(s[1..])
  }

  function LowerChar(c: char): char {
    if 'A' <= c <= 'Z' then c + 32 as char else c
  }

  function ToLower(s: string): (l: string)
    ensures |l| == |s|
    ensures forall i | 0 <= i < |s| :: l[i] == LowerChar(s[i])
  {
    if s == "" then "" else [LowerChar(s[0])] + ToLower(s[1..])
  }

  /** Lower-casing loses nothing of an upper-case word. */
  lemma LowerOfUpper(s: string)
    requires ToUpper(s) == s
    ensures ToUpper(ToLower(s)) == s
  {
    forall i | 0 <= i < |s| ensures ToUpper(ToLower(s))[i] == s[i] {
      assert s[i] == UpperChar(s[i]);
    }
  }

  /** `capitalise`: only an ASCII lower-case first letter changes. */
  function Capitalise(s: string): (c: string)
    ensures |c| == |s|
  {
    if s == "" then "" else [UpperChar(s[0])] + s[1..]
  }

  /** Byte-wise lexicographic order, as Go compares strings. */
  predicate Leq(a: string, b: string) {
    a == "" || (b != "" && (a[0] < b[0] || (a[0] == b[0] && Leq(a[1..], b[1..]))))
  }

  lemma {:induction false} LeqTotal(a: string, b: string)
    ensures Leq(a, b) || Leq(b, a)
  {
    if a != "" && b != "" {
      LeqTotal(a[1..], b[1..]);
    }
  }

  lemma {:induction false} LeqTrans(a: string, b: string, c: string)
    requires Leq(a, b) && Leq(b, c)
    ensures Leq(a, c)
  {
    if a != "" && a[0] == b[0] == c[0] {
      LeqTrans(a[1..], b[1..], c[1..]);
    }
  }

  lemma {:induction false} LeqAntisymmetric(a: string, b: string)
    requires Leq(a, b) && Leq(b, a)
    ensures a == b
  {
    if a != "" {
      LeqAntisymmetric(a[1..], b[1..]);
      assert a == [a[0]] + a[1..] && b == [b[0]] + b[1..];
    }
  }

  // ---- what these come to ----

  /** The i-th letter of either case. */
  function Small(i: nat): char
    requires i < 26
  {
    'a' + i as char
  }

  function Big(i: nat): char
    requires i < 26
  {
    'A' + i as char
  }

  /** Case is a matter of 26 pairs of letters and touches no other character. */
  lemma CasePairs(c: char)
    ensures forall i: nat | i < 26 :: UpperChar(Small(i)) == Big(i) && LowerChar(Big(i)) == Small(i)
    ensures (forall i: nat | i < 26 :: c != Small(i)) ==> UpperChar(c) == c
    ensures (forall i: nat | i < 26 :: c != Big(i)) ==> LowerChar(c) == c
  {
    if 'a' <= c <= 'z' {
      assert c == Small(c as int - 'a' as int);
    }
    if 'A' <= c <= 'Z' {
      assert c == Big(c as int - 'A' as int);
    }
  }

  /** A capitalised name: the first letter from the other alphabet, the rest as it was. */
  lemma CapitaliseFirst(c: char, rest: string)
    ensures Capitalise("") == ""
    ensures forall i: nat | i < 26 :: Capitalise([Small(i)] + rest) == [Big(i)] + rest
    ensures (forall i: nat | i < 26 :: c != Small(i)) ==> Capitalise([c] + rest) == [c] + rest
  {
    CasePairs(c);
    assert ([c] + rest)[1..] == rest;
    forall i: nat | i < 26 ensures Capitalise([Small(i)] + rest) == [Big(i)] + rest {
      assert ([Small(i)] + rest)[1..] == rest;
    }
  }

  /** The number decimal digits spell. */
  function Decimal(s: string): int {
    if s == "" then 0 else 10 * Decimal(s[..|s| - 1]) + (s[|s| - 1] as int - '0' as int)
  }

  /** `Itoa` spells its number in decimal digits, without a leading zero. */
  lemma {:induction false} ItoaSpells(n: nat)
    ensures forall c | c in Itoa(n) :: '0' <= c <= '9'
    ensures Decimal(Itoa(n)) == n && (n > 0 ==> Itoa(n)[0] != '0')
  {
    if n < 10 {
      assert Itoa(n) == [Digit(n)] && [Digit(n)][..0] == "";
      assert Decimal([Digit(n)]) == 10 * Decimal([Digit(n)][..0]) + n;
    } else {
      ItoaSpells(n / 10);
      var init := Itoa(n / 10);
      assert Itoa(n)[..|init|] == init && Itoa(n)[|init|] == Digit(n % 10);
    }
  }

  /** `a` is before `b`: it is a prefix, or has the smaller character where they first differ. */
  predicate Precedes(a: string, b: string) {
    a <= b || exists i :: 0 <= i < |a| && i < |b| && a[..i] == b[..i] && a[i] < b[i]
  }

  lemma PrecedesCons(c: char, a: string, b: string)
    ensures Precedes([c] + a, [c] + b) <==> Precedes(a, b)
  {
    var s, t := [c] + a, [c] + b;
    assert s[1..] == a && t[1..] == b;
    if a <= b {
      assert s == t[..|s|];
    }
    if s <= t {
      assert a == b[..|a|];
    }
    if i :| 0 <= i < |a| && i < |b| && a[..i] == b[..i] && a[i] < b[i] {
      assert s[..i + 1] == [c] + a[..i] && t[..i + 1] == [c] + b[..i];
    }
    if i :| 0 <= i < |s| && i < |t| && s[..i] == t[..i] && s[i] < t[i] {
      assert i > 0 && a[..i - 1] == s[..i][1..] && b[..i - 1] == t[..i][1..];
      assert a[i - 1] < b[i - 1];
    }
  }

  /** The order strings are sorted by. */
  lemma {:induction false} LeqIsPrecedes(a: string, b: string)
    ensures Leq(a, b) <==> Precedes(a, b)
  {
    if a != "" && b != "" {
      assert a == [a[0]] + a[1..] && b == [b[0]] + b[1..];
      if a[0] == b[0] {
        PrecedesCons(a[0], a[1..], b[1..]);
        LeqIsPrecedes(a[1..], b[1..]);
      } else {
        assert a[..0] == b[..0];
        forall i | 0 < i < |a| && i < |b| ensures a[..i] != b[..i] {
          assert a[..i][0] != b[..i][0];
        }
      }
    }
  }
}
