/** Strings as sequences of characters: white space, order, decimal and UUID renderings. */
module Text {
  import opened Wrappers

  // ---- White space and letter case ----

  /** str.isspace in Python, which is also what \s matches in a str pattern. */
  predicate IsSpace(c: char) {
    var n := c as int;
    || 9 <= n <= 13 || 28 <= n <= 32 || n == 0x85 || n == 0xA0 || n == 0x1680
    || 0x2000 <= n <= 0x200A || n == 0x2028 || n == 0x2029 || n == 0x202F || n == 0x205F || n == 0x3000
  }

  function StripLeft(s: string): (r: string) {
    if s != "" && IsSpace(s[0]) then StripLeft(s[1..]) else s
  }

  function StripRight(s: string): (r: string) {
    if s != "" && IsSpace(s[|s| - 1]) then StripRight(s[..|s| - 1]) else s
  }

  function Strip(s: string): (r: string) {
    StripRight(StripLeft(s))
  }

  function LowerChar(c: char): (r: char) {
    if 'A' <= c <= 'Z' then c - 'A' + 'a' else c
  }

  /** Lower case on the ASCII letters, the only ones that matter to the names compared here. */
  function Lower(s: string): (r: string)
    ensures |r| == |s|
  {
    if s == "" then "" else [LowerChar(s[0])] + Lower(s[1..])
  }

  /** The controls that separate (tab to carriage return, the four information separators, next line)
      and the space separators, category Zs of Unicode. */
  predicate Separates(c: char) {
    || c in "\t\n\U{000B}\U{000C}\r\U{001C}\U{001D}\U{001E}\U{001F}\U{0085}\U{2028}\U{2029}"
    || SpaceSeparator(c)
  }

  predicate SpaceSeparator(c: char) {
    || c in " \U{00A0}\U{1680}\U{202F}\U{205F}\U{3000}"
    || c in "\U{2000}\U{2001}\U{2002}\U{2003}\U{2004}\U{2005}\U{2006}\U{2007}\U{2008}\U{2009}\U{200A}"
  }

  lemma IsSpaceIff(c: char)
    ensures IsSpace(c) <==> Separates(c)
  {
  }

  ghost predicate AllSpace(s: string) {
    forall i | 0 <= i < |s| :: IsSpace(s[i])
  }

  lemma {:induction false} StripLeftIsSuffix(s: string)
    ensures var r := StripLeft(s);
            && |r| <= |s| && r == s[|s| - |r|..] && (r != "" ==> !IsSpace(r[0]))
            && AllSpace(s[..|s| - |r|])
  {
    if s != "" && IsSpace(s[0]) {
      StripLeftIsSuffix(s[1..]);
      assert s[..|s| - |StripLeft(s)|][1..] == s[1..][..|s[1..]| - |StripLeft(s)|];
    }
  }

  lemma {:induction false} StripRightIsPrefix(s: string)
    ensures var r := StripRight(s);
            && |r| <= |s| && r == s[..|r|] && (r != "" ==> !IsSpace(r[|r| - 1]))
            && AllSpace(s[|r|..])
  {
    if s != "" && IsSpace(s[|s| - 1]) {
      var t := s[..|s| - 1];
      StripRightIsPrefix(t);
      assert s[|StripRight(s)|..] == t[|StripRight(t)|..] + [s[|s| - 1]];
    }
  }

  /** Stripping takes white space off both ends and nothing else, and leaves none there. */
  lemma StripParts(s: string) returns (a: string, b: string)
    ensures s == a + Strip(s) + b && AllSpace(a) && AllSpace(b)
    ensures Strip(s) != "" ==> !IsSpace(Strip(s)[0]) && !IsSpace(Strip(s)[|Strip(s)| - 1])
  {
    var t := StripLeft(s);
    StripLeftIsSuffix(s);
    StripRightIsPrefix(t);
    a, b := s[..|s| - |t|], t[|StripRight(t)|..];
  }

  lemma {:induction false} LowerChars(s: string)
    ensures forall i | 0 <= i < |s| :: Lower(s)[i] == LowerChar(s[i])
  {
    if s != "" {
      LowerChars(s[1..]);
    }
  }

  /** Each capital letter becomes its small letter, 32 codes on, and nothing else changes. */
  lemma LowerExact(s: string, i: nat)
    requires i < |s|
    ensures Lower(s)[i] as int == s[i] as int + if 65 <= s[i] as int <= 90 then 32 else 0
  {
    LowerChars(s);
  }

  // ---- Lexicographic order by code unit ----

  predicate Less(a: string, b: string) {
    b != "" && (a == "" || a[0] < b[0] || (a[0] == b[0] && Less(a[1..], b[1..])))
  }

  /** Equal-length prefixes decide first. */
  lemma {:induction false} LessConcat(a: string, b: string, c: string, d: string)
    requires |a| == |c|
    ensures Less(a + b, c + d) <==> Less(a, c) || (a == c && Less(b, d))
  {
    if a == "" {
      assert a + b == b && c + d == d;
    } else {
      assert (a + b)[1..] == a[1..] + b && (c + d)[1..] == c[1..] + d;
      LessConcat(a[1..], b, c[1..], d);
      if a[0] == c[0] && a[1..] == c[1..] {
        assert a == [a[0]] + a[1..] && c == [c[0]] + c[1..];
      }
    }
  }

  lemma {:induction false} LessTrichotomy(a: string, b: string)
    ensures Less(a, b) || a == b || Less(b, a)
    ensures !(Less(a, b) && Less(b, a)) && (a == b ==> !Less(a, b))
  {
    if a != "" && b != "" && a[0] == b[0] {
      LessTrichotomy(a[1..], b[1..]);
      assert a == [a[0]] + a[1..] && b == [b[0]] + b[1..];
    }
  }

  lemma {:induction false} LessTransitive(a: string, b: string, c: string)
    requires Less(a, b) && Less(b, c)
    ensures Less(a, c)
  {
    if a != "" && a[0] == b[0] == c[0] {
      LessTransitive(a[1..], b[1..], c[1..]);
    }
  }

  // ---- Decimal numbers ----

  function Digit(d: nat): (c: char)
    requires d < 10
    ensures IsDigit(c) && c as nat == '0' as nat + d
  {
    '0' + d as char
  }

  predicate IsDigit(c: char) { '0' <= c <= '9' }

  function DigitValue(c: char): (d: nat)
    requires IsDigit(c)
    ensures d < 10 && c as nat == '0' as nat + d
  {
    (c - '0') as nat
  }

  predicate AllDigits(s: string) { forall i | 0 <= i < |s| :: IsDigit(s[i]) }

  /** The number a digit string stands for. */
  function Value(s: string): (n: nat)
    requires AllDigits(s)
  {
    if s == "" then 0 else 10 * Value(s[..|s| - 1]) + DigitValue(s[|s| - 1])
  }

  function NatText(n: nat): (s: string)
    ensures s != "" && AllDigits(s)
  {
    if n < 10 then [Digit(n)] else NatText(n / 10) + [Digit(n % 10)]
  }

  lemma {:induction false} NatTextValue(n: nat)
    ensures Value(NatText(n)) == n
  {
    if n < 10 {
      assert [Digit(n)][..0] == "";
    } else {
      NatTextValue(n / 10);
      assert NatText(n)[..|NatText(n)| - 1] == NatText(n / 10);
    }
  }

  /** A number prints as its decimal digits, without leading zeros. */
  lemma {:induction false} NatTextExact(n: nat)
    ensures Value(NatText(n)) == n && if n == 0 then NatText(n) == "0" else NatText(n)[0] != '0'
  {
    NatTextValue(n);
    if n >= 10 {
      NatTextExact(n / 10);
    }
  }

  function IntText(n: int): (s: string) {
    if n < 0 then "-" + NatText(-n) else NatText(n)
  }

  lemma SignShows(m: int, n: int)
    requires m < 0 <= n
    ensures IntText(m) != IntText(n)
  {
    assert IntText(m)[0] == '-' && IntText(n)[0] == NatText(n)[0];
  }

  lemma IntTextInjective(m: int, n: int)
    requires IntText(m) == IntText(n)
    ensures m == n
  {
    if m < 0 && n < 0 {
      assert IntText(m)[1..] == NatText(-m) && IntText(n)[1..] == NatText(-n);
      NatTextValue(-m);
      NatTextValue(-n);
    } else if m < 0 || n < 0 {
      SignShows(if m < 0 then m else n, if m < 0 then n else m);
    } else {
      NatTextValue(m);
      NatTextValue(n);
    }
  }

  function Pow10(w: nat): (p: nat)
    ensures p > 0
  {
    if w == 0 then 1 else 10 * Pow10(w - 1)
  }

  /** The last w digits of n, with leading zeros. */
  function Padded(n: nat, w: nat): (s: string)
    ensures |s| == w && AllDigits(s)
  {
    if w == 0 then "" else Padded(n / 10, w - 1) + [Digit(n % 10)]
  }

  lemma {:induction false} PaddedValue(n: nat, w: nat)
    requires n < Pow10(w)
    ensures Value(Padded(n, w)) == n
  {
    if w > 0 {
      PaddedValue(n / 10, w - 1);
      assert Padded(n, w)[..w - 1] == Padded(n / 10, w - 1);
    }
  }

  /** On numbers that fit, padded text orders as the numbers do. */
  lemma LastDigitOrder(m: nat, n: nat)
    ensures m < n <==> m / 10 < n / 10 || (m / 10 == n / 10 && m % 10 < n % 10)
    ensures Less([Digit(m % 10)], [Digit(n % 10)]) <==> m % 10 < n % 10
    ensures Digit(m % 10) == Digit(n % 10) <==> m % 10 == n % 10
  {
  }

  lemma {:induction false} PaddedOrder(m: nat, n: nat, w: nat)
    requires m < Pow10(w) && n < Pow10(w)
    ensures Less(Padded(m, w), Padded(n, w)) <==> m < n
    ensures Padded(m, w) == Padded(n, w) <==> m == n
  {
    if w > 0 {
      PaddedOrder(m / 10, n / 10, w - 1);
      LastDigitOrder(m, n);
      LessConcat(Padded(m / 10, w - 1), [Digit(m % 10)], Padded(n / 10, w - 1), [Digit(n % 10)]);
      assert Padded(m, w)[..w - 1] == Padded(m / 10, w - 1) && Padded(n, w)[..w - 1] == Padded(n / 10, w - 1);
      assert Padded(m, w)[w - 1] == Digit(m % 10) && Padded(n, w)[w - 1] == Digit(n % 10);
    }
  }

  // ---- UUIDs: sixteen bytes as thirty-two hexadecimal digits ----

  type Nibble = n: nat | n < 16

  /** The canonical 8-4-4-4-12 text of a uuid, as PostgreSQL's ::text and Python's str give it. */
  datatype Uuid = Uuid(nibbles: seq<Nibble>) {
    predicate Valid() { |nibbles| == 32 }

    function Text(): (s: string)
      requires Valid()
      ensures |s| == 36
    {
      Hex(nibbles[..8]) + "-" + Hex(nibbles[8..12]) + "-" + Hex(nibbles[12..16]) + "-"
      + Hex(nibbles[16..20]) + "-" + Hex(nibbles[20..])
    }
  }

  function HexDigit(n: Nibble): (c: char) {
    if n < 10 then '0' + n as char else 'a' + (n - 10) as char
  }

  function Hex(s: seq<Nibble>): (r: string)
    ensures |r| == |s|
    ensures forall i | 0 <= i < |s| :: r[i] == HexDigit(s[i])
  {
    seq(|s|, i requires 0 <= i < |s| => HexDigit(s[i]))
  }

  lemma HexDigitIs(n: Nibble)
    ensures HexDigit(n) == "0123456789abcdef"[n]
  {
  }

  lemma HexInjective(s: seq<Nibble>, t: seq<Nibble>)
    requires Hex(s) == Hex(t)
    ensures s == t
  {
    assert |s| == |Hex(s)| == |t|;
    forall i | 0 <= i < |s| ensures s[i] == t[i] {
      assert Hex(s)[i] == HexDigit(s[i]) && Hex(t)[i] == HexDigit(t[i]);
    }
  }

  lemma FiveParts(a: string, b: string, c: string, d: string, e: string)
    requires |a| == 8 && |b| == |c| == |d| == 4
    ensures var s := a + "-" + b + "-" + c + "-" + d + "-" + e;
            s[..8] == a && s[9..13] == b && s[14..18] == c && s[19..23] == d && s[24..] == e
  {
    var s := a + "-" + b + "-" + c + "-" + d + "-" + e;
    assert s[..8] == a;
    assert s[9..13] == b;
    assert s[14..18] == c;
    assert s[19..23] == d;
    assert s[24..] == e;
  }

  lemma UuidParts(u: Uuid)
    requires u.Valid()
    ensures var s, n := u.Text(), u.nibbles;
            && s[..8] == Hex(n[..8]) && s[9..13] == Hex(n[8..12]) && s[14..18] == Hex(n[12..16])
            && s[19..23] == Hex(n[16..20]) && s[24..] == Hex(n[20..])
  {
    var n := u.nibbles;
    FiveParts(Hex(n[..8]), Hex(n[8..12]), Hex(n[12..16]), Hex(n[16..20]), Hex(n[20..]));
  }

  /** The text of a UUID: thirty-two small hexadecimal digits in groups of 8, 4, 4, 4 and 12. */
  lemma UuidTextExact(u: Uuid, i: nat)
    requires u.Valid() && i < 32
    ensures var s := u.Text();
            && |s| == 36 && s[8] == s[13] == s[18] == s[23] == '-'
            && s[if i < 8 then i else if i < 12 then i + 1 else if i < 16 then i + 2 else if i < 20 then i + 3 else i + 4]
               == "0123456789abcdef"[u.nibbles[i]]
  {
    var n := u.nibbles;
    HexDigitIs(n[i]);
  }

  lemma SameParts<T>(a: seq<T>, b: seq<T>)
    requires |a| == |b| == 32 && a[..8] == b[..8] && a[8..12] == b[8..12] && a[12..16] == b[12..16]
    requires a[16..20] == b[16..20] && a[20..] == b[20..]
    ensures a == b
  {
    assert a == a[..8] + a[8..12] + a[12..16] + a[16..20] + a[20..];
    assert b == b[..8] + b[8..12] + b[12..16] + b[16..20] + b[20..];
  }

  /** Two UUIDs with the same text are the same. */
  lemma UuidTextInjective(u: Uuid, v: Uuid)
    requires u.Valid() && v.Valid() && u.Text() == v.Text()
    ensures u == v
  {
    var a, b := u.nibbles, v.nibbles;
    UuidParts(u);
    UuidParts(v);
    HexInjective(a[..8], b[..8]);
    HexInjective(a[8..12], b[8..12]);
    HexInjective(a[12..16], b[12..16]);
    HexInjective(a[16..20], b[16..20]);
    HexInjective(a[20..], b[20..]);
    SameParts(a, b);
  }
}
