/** Percent-encoding of one path segment, as section 2.1 of RFC 3986 has it and as the
    standard library's PathEscape and PathUnescape apply it. A `char` stands for one byte. */
module Escaping {
  import opened Text
  import opened Wrappers

  predicate IsBytes(s: string) {
    forall i | 0 <= i < |s| :: s[i] as int < 256
  }

  /** Bytes PathEscape leaves alone: the unreserved ones and `$ & + : = @`. */
  predicate Plain(c: char) {
    'a' <= c <= 'z' || 'A' <= c <= 'Z' || '0' <= c <= '9'
    || c in {'-', '_', '.', '~', '$', '&', '+', ':', '=', '@'}
  }

  function HexDigit(d: nat): char
    requires d < 16
  {
    if d < 10 then '0' + d as char else 'A' + (d - 10) as char
  }

  predicate IsHex(c: char) {
    '0' <= c <= '9' || 'a' <= c <= 'f' || 'A' <= c <= 'F'
  }

  function HexValue(c: char): (d: nat)
    requires IsHex(c)
    ensures d < 16
  {
    if '0' <= c <= '9' then (c - '0') as nat
    else if 'a' <= c <= 'f' then (c - 'a') as nat + 10
    else (c - 'A') as nat + 10
  }

  function EscapeByte(c: char): string
    requires c as int < 256
  {
    if Plain(c) then [c] else ['%', HexDigit(c as int / 16), HexDigit(c as int % 16)]
  }

  function PathEscape(s: string): string
    requires IsBytes(s)
  {
    if s == "" then "" else EscapeByte(s[0]) + PathEscape(s[1..])
  }

  /** Decoding fails on a `%` not followed by two hexadecimal digits. */
  function PathUnescape(s: string): Option<string> {
    if s == "" then Some("")
    else if s[0] != '%' then
      (match PathUnescape(s[1..]) case None => None case Some(t) => Some([s[0]] + t))
    else if |s| < 3 || !IsHex(s[1]) || !IsHex(s[2]) then None
    else
      (match PathUnescape(s[3..])
       case None => None
       case Some(t) => Some([(HexValue(s[1]) * 16 + HexValue(s[2])) as char] + t))
  }

  lemma HexRoundTrip(d: nat)
    requires d < 16
    ensures IsHex(HexDigit(d)) && HexValue(HexDigit(d)) == d
  {
  }

  lemma PlainStays(c: char, rest: string)
    requires c != '%' && PathUnescape(rest).Some?
    ensures PathUnescape([c] + rest) == Some([c] + PathUnescape(rest).value)
  {
    assert ([c] + rest)[1..] == rest;
  }

  lemma TripletDecodes(h: char, l: char, rest: string)
    requires IsHex(h) && IsHex(l) && PathUnescape(rest).Some?
    ensures PathUnescape(['%', h, l] + rest)
            == Some([(HexValue(h) * 16 + HexValue(l)) as char] + PathUnescape(rest).value)
  {
    var e := ['%', h, l] + rest;
    assert e[0] == '%' && e[1] == h && e[2] == l && e[3..] == rest;
  }

  lemma ByteBack(c: char, rest: string)
    requires c as int < 256 && PathUnescape(rest).Some?
    ensures PathUnescape(EscapeByte(c) + rest) == Some([c] + PathUnescape(rest).value)
  {
    if Plain(c) {
      PlainStays(c, rest);
    } else {
      HexRoundTrip(c as int / 16);
      HexRoundTrip(c as int % 16);
      TripletDecodes(HexDigit(c as int / 16), HexDigit(c as int % 16), rest);
    }
  }

  lemma {:induction false} UnescapeInvertsEscape(s: string)
    requires IsBytes(s)
    ensures PathUnescape(PathEscape(s)) == Some(s)
  {
    if s != "" {
      UnescapeInvertsEscape(s[1..]);
      ByteBack(s[0], PathEscape(s[1..]));
      assert s == [s[0]] + s[1..];
    }
  }

  /** An escaped segment cannot open a new one, nor look like a parameter. */
  lemma {:induction false} EscapedIsOneSegment(s: string)
    requires IsBytes(s)
    ensures '/' !in PathEscape(s) && '{' !in PathEscape(s)
  {
    if s != "" {
      EscapedIsOneSegment(s[1..]);
    }
  }

  lemma {:induction false} UnescapeKeepsBytes(s: string)
    requires IsBytes(s) && PathUnescape(s).Some?
    ensures IsBytes(PathUnescape(s).value)
    ensures s != "" ==> PathUnescape(s).value != ""
  {
    if s != "" {
      if s[0] != '%' {
        UnescapeKeepsBytes(s[1..]);
      } else {
        UnescapeKeepsBytes(s[3..]);
      }
    }
  }

  // ---- what these come to ----

  const HEX_UPPER := "0123456789ABCDEF"
  const HEX_LOWER := "0123456789abcdef"

  /** A letter, a digit or one of `- _ . ~ $ & + : = @`. */
  predicate Safe(c: char) {
    || (exists i: nat :: i < 26 && (c == Small(i) || c == Big(i)))
    || (exists i: nat :: i < 10 && c == Digit(i))
    || c == '-' || c == '_' || c == '.' || c == '~'
    || c == '$' || c == '&' || c == '+' || c == ':' || c == '=' || c == '@'
  }

  lemma SafeIsPlain(c: char)
    ensures Safe(c) <==> Plain(c)
  {
    if 'a' <= c <= 'z' {
      assert c == Small(c as int - 'a' as int);
    }
    if 'A' <= c <= 'Z' {
      assert c == Big(c as int - 'A' as int);
    }
    if '0' <= c <= '9' {
      assert c == Digit(c as int - '0' as int);
    }
  }

  lemma HexDigits(d: nat)
    requires d < 16
    ensures HexDigit(d) == HEX_UPPER[d]
    ensures IsHex(HEX_UPPER[d]) && HexValue(HEX_UPPER[d]) == d && IsHex(HEX_LOWER[d]) && HexValue(HEX_LOWER[d]) == d
  {
  }

  lemma HexIs(c: char)
    requires IsHex(c)
    ensures c == HEX_UPPER[HexValue(c)] || c == HEX_LOWER[HexValue(c)]
  {
  }

  /** Escaping goes byte by byte: a safe one stays, any other becomes `%` and its two
      hexadecimal digits, in capitals. */
  lemma {:induction false} EscapeExactly(s: string, t: string, c: char)
    requires IsBytes(s) && IsBytes(t) && c as int < 256
    ensures PathEscape("") == "" && IsBytes(s + t) && PathEscape(s + t) == PathEscape(s) + PathEscape(t)
    ensures IsBytes([c])
    ensures PathEscape([c]) == if Safe(c) then [c] else ['%', HEX_UPPER[c as int / 16], HEX_UPPER[c as int % 16]]
  {
    SafeIsPlain(c);
    HexDigits(c as int / 16);
    HexDigits(c as int % 16);
    assert [c][1..] == "" && PathEscape([c]) == EscapeByte(c) + "";
    EscapeAppends(s, t);
  }

  lemma {:induction false} EscapeAppends(s: string, t: string)
    requires IsBytes(s) && IsBytes(t)
    ensures IsBytes(s + t) && PathEscape(s + t) == PathEscape(s) + PathEscape(t)
  {
    if s == "" {
      assert s + t == t;
    } else {
      assert s + t == [s[0]] + (s[1..] + t) && (s + t)[1..] == s[1..] + t;
      EscapeAppends(s[1..], t);
    }
  }

  /** The digit `h` spells `x`, in either case. */
  predicate Spells(h: char, x: nat)
    requires x < 16
  {
    h == HEX_UPPER[x] || h == HEX_LOWER[x]
  }

  lemma SpellsIs(h: char)
    ensures IsHex(h) ==> Spells(h, HexValue(h))
    ensures forall x: nat | x < 16 && Spells(h, x) :: IsHex(h) && HexValue(h) == x
  {
    if IsHex(h) {
      HexIs(h);
    }
    forall x: nat | x < 16 && Spells(h, x) ensures IsHex(h) && HexValue(h) == x {
      HexDigits(x);
    }
  }

  /** `c` in front of what `rest` decodes to. */
  function Fronted(c: char, rest: string): Option<string> {
    match PathUnescape(rest) case None => None case Some(t) => Some([c] + t)
  }

  lemma UnescapeTriplet(h: char, l: char, rest: string)
    ensures PathUnescape(['%', h, l] + rest)
            == if IsHex(h) && IsHex(l) then Fronted((16 * HexValue(h) + HexValue(l)) as char, rest) else None
  {
    var e := ['%', h, l] + rest;
    assert e[0] == '%' && e[1] == h && e[2] == l && e[3..] == rest;
  }

  /** Decoding goes from the left: a `%` needs two hexadecimal digits, of either case, behind it
      and gives the byte they spell; anything else stands for itself. */
  lemma UnescapeExactly(c: char, h: char, l: char, rest: string)
    ensures PathUnescape("") == Some("") && PathUnescape("%") == PathUnescape(['%', h]) == None
    ensures c != '%' ==> PathUnescape([c] + rest) == Fronted(c, rest)
    ensures forall x: nat, y: nat | x < 16 && y < 16 && Spells(h, x) && Spells(l, y) ::
              PathUnescape(['%', h, l] + rest) == Fronted((16 * x + y) as char, rest)
    ensures (forall x: nat | x < 16 :: !Spells(h, x)) || (forall y: nat | y < 16 :: !Spells(l, y)) ==>
            PathUnescape(['%', h, l] + rest) == None
  {
    assert ([c] + rest)[1..] == rest;
    UnescapeTriplet(h, l, rest);
    SpellsIs(h);
    SpellsIs(l);
  }
}
