/**
 Secret-safe error text: the first line, three substitutions by regular expression, a length limit.
 Each expression is deterministic on the text after a position, so a substitution is one scan.
 */
module Sanitizer {
  import opened Wrappers
  import opened Text

  // ---- The expressions ----

  datatype Rule = Auth | Secret | Url

  /** Case-insensitive equality with a lower-case ASCII letter or a sign, as re.IGNORECASE has it. */
  predicate Like(c: char, letter: char) {
    || c == letter
    || ('a' <= letter <= 'z' && c == letter - 'a' + 'A')
    || (letter == 's' && c == '\U{17F}')
    || (letter == 'k' && c == '\U{212A}')
    || (letter == 'i' && (c == '\U{130}' || c == '\U{131}'))
  }

  predicate StartsWith(s: string, word: string) {
    |word| <= |s| && forall i | 0 <= i < |word| :: Like(s[i], word[i])
  }

  /** The characters that end a value, or a URL. */
  predicate Stop(rule: Rule, c: char) {
    || IsSpace(c)
    || (rule != Url && (c == ',' || c == ';'))
    || (rule == Secret && c == '&')
    || (rule == Url && (c == ']' || c == '[' || c == '(' || c == ')' || c == '<' || c == '>' || c == '"' || c == '\''))
  }

  /** The alternatives of each expression, in order; both spellings of api[_-]?key and https? spelled out. */
  function Words(rule: Rule): (ws: seq<string>) {
    match rule
    case Auth => ["authorization"]
    case Secret =>
      ["access_token", "refresh_token", "client_secret", "password", "api_key", "api-key", "apikey", "token", "key"]
    case Url => ["https://", "http://"]
  }

  /** The length of the first word of the list that the text starts with, or 0. */
  function FirstWord(ws: seq<string>, s: string): (n: nat)
    ensures n <= |s|
  {
    if ws == [] then 0 else if StartsWith(s, ws[0]) then |ws[0]| else FirstWord(ws[1..], s)
  }

  function WordLen(rule: Rule, s: string): (n: nat)
    ensures n <= |s|
  {
    FirstWord(Words(rule), s)
  }

  function SkipSpaces(s: string, i: nat): (j: nat)
    requires i <= |s|
    ensures i <= j <= |s|
    ensures forall k | i <= k < j :: IsSpace(s[k])
    ensures j < |s| ==> !IsSpace(s[j])
    decreases |s| - i
  {
    if i < |s| && IsSpace(s[i]) then SkipSpaces(s, i + 1) else i
  }

  function RunEnd(rule: Rule, s: string, i: nat): (j: nat)
    requires i <= |s|
    ensures i <= j <= |s|
    ensures forall k | i <= k < j :: !Stop(rule, s[k])
    ensures j < |s| ==> Stop(rule, s[j])
    decreases |s| - i
  {
    if i < |s| && !Stop(rule, s[i]) then RunEnd(rule, s, i + 1) else i
  }

  predicate Separator(c: char) { c == ':' || c == '=' }

  /** What stands before a value: keyword, separator and the spaces around it; for a URL, the scheme. */
  function HeadLen(rule: Rule, s: string): (h: Option<nat>)
    ensures h.Some? ==> 0 < h.value <= |s|
  {
    var w := WordLen(rule, s);
    if w == 0 then None
    else if rule == Url then Some(w)
    else
      var p := SkipSpaces(s, w);
      if p < |s| && Separator(s[p]) then Some(SkipSpaces(s, p + 1)) else None
  }

  /** The head of a match that goes on with at least one character of a value. */
  predicate HeadAt(rule: Rule, s: string, h: nat) {
    HeadLen(rule, s) == Some(h) && h < |s| && !Stop(rule, s[h])
  }

  /** Where the last run of a value starts: behind "bearer" if something follows it. */
  function ValueFrom(rule: Rule, s: string, h: nat): (v: nat)
    requires h < |s| && !Stop(rule, s[h])
    ensures h <= v < |s| && !Stop(rule, s[v])
  {
    if rule == Auth && StartsWith(s[h..], "bearer") && h + 6 < |s| && IsSpace(s[h + 6]) then
      var b := SkipSpaces(s, h + 6);
      if b < |s| && !Stop(Auth, s[b]) then b else h
    else h
  }

  /** A match at the start of the text: how much of it is kept, and how long it is. */
  datatype Hit = Hit(keep: nat, len: nat)

  function Match(rule: Rule, s: string): (r: Option<Hit>)
    ensures r.Some? ==> r.value.keep < r.value.len <= |s|
  {
    match HeadLen(rule, s)
    case None => None
    case Some(h) =>
      if h < |s| && !Stop(rule, s[h]) then
        Some(Hit(if rule == Url then 0 else h, RunEnd(rule, s, ValueFrom(rule, s, h))))
      else None
  }

  /** A match is a head and the longest run of value characters after it. */
  lemma MatchIff(rule: Rule, s: string)
    ensures Match(rule, s).Some? <==> exists h: nat :: HeadAt(rule, s, h)
    ensures Match(rule, s).Some? ==>
              var hit := Match(rule, s).value;
              && (if rule == Url then hit.keep == 0 else HeadAt(rule, s, hit.keep))
              && (hit.len < |s| ==> Stop(rule, s[hit.len]))
  {
    if Match(rule, s).Some? {
      assert HeadAt(rule, s, HeadLen(rule, s).value);
    }
  }

  const REDACTED := "[REDACTED]"

  function Marker(rule: Rule): (m: string)
    ensures m != "" && m[0] == '['
  {
    if rule == Url then "[REDACTED_URL]" else REDACTED
  }

  function Sub(rule: Rule, s: string): (t: string)
    decreases |s|
  {
    if s == "" then ""
    else match Match(rule, s)
         case None => [s[0]] + Sub(rule, s[1..])
         case Some(hit) => s[..hit.keep] + Marker(rule) + Sub(rule, s[hit.len..])
  }

  function FirstLine(s: string): (r: string) {
    if s == "" || s[0] == '\n' then "" else [s[0]] + FirstLine(s[1..])
  }

  /** text[:limit], which counts from the end for a negative limit. */
  function Truncated(s: string, limit: int): (r: string)
    ensures |r| <= |s| && r == s[..|r|]
    ensures limit >= 0 ==> |r| <= limit
    ensures 0 <= limit <= |s| ==> |r| == limit
    ensures limit >= |s| ==> r == s
    ensures limit < 0 ==> |r| == if -limit <= |s| then |s| + limit else 0
  {
    if limit >= |s| then s
    else if limit >= 0 then s[..limit]
    else if |s| + limit >= 0 then s[..|s| + limit]
    else ""
  }

  function Replaced(text: string): (r: string) {
    Sub(Url, Sub(Secret, Sub(Auth, FirstLine(text))))
  }

  function SanitizeSensitiveText(text: string, limit: int): (r: string) {
    Truncated(Replaced(text), limit)
  }

  // ---- Words ----

  /** What a word is made of: no bracket, no space; a separator only in a URL scheme. */
  predicate Plain(rule: Rule, c: char) {
    || 'a' <= c <= 'z' || c == '_' || c == '-'
    || (rule == Url && (c == ':' || c == '/'))
  }

  predicate PlainWord(rule: Rule, w: string) {
    |w| >= 3 && forall k | 0 <= k < |w| :: Plain(rule, w[k])
  }

  /** Some place tells the two words apart. */
  predicate Apart(w: string, v: string) {
    exists k | 0 <= k < |w| && k < |v| :: w[k] != v[k]
  }

  ghost predicate PlainWords(rule: Rule, ws: seq<string>) {
    forall w <- ws :: PlainWord(rule, w)
  }

  ghost predicate AllApart(ws: seq<string>) {
    forall i, j | 0 <= i < j < |ws| :: Apart(ws[i], ws[j])
  }

  lemma SecretWordsArePlain(ws: seq<string>)
    requires ws == Words(Secret)
    ensures forall i | 0 <= i < 9 :: PlainWord(Secret, ws[i])
  {
    assert PlainWord(Secret, ws[0]);
    assert PlainWord(Secret, ws[1]);
    assert PlainWord(Secret, ws[2]);
    assert PlainWord(Secret, ws[3]);
    assert PlainWord(Secret, ws[4]);
    assert PlainWord(Secret, ws[5]);
  }

  lemma WordsArePlain(rule: Rule)
    ensures PlainWords(rule, Words(rule))
  {
    if rule == Secret {
      SecretWordsArePlain(Words(Secret));
    }
  }

  lemma ApartAt(w: string, v: string, k: nat)
    requires k < |w| && k < |v| && w[k] != v[k]
    ensures Apart(w, v)
  {
  }

  lemma WordsAreApart(rule: Rule, ws: seq<string>)
    requires ws == Words(rule)
    ensures AllApart(ws)
  {
    forall i, j | 0 <= i < j < |ws| ensures Apart(ws[i], ws[j]) {
      match rule
      case Auth => assert false;
      case Url => ApartAt(ws[i], ws[j], 4);
      case Secret =>
        if 4 <= i && j <= 6 {
          ApartAt(ws[i], ws[j], 3);
        } else if ws[i][0] == 'a' && ws[j][0] == 'a' {
          ApartAt(ws[i], ws[j], 1);
        } else {
          ApartAt(ws[i], ws[j], 0);
        }
    }
  }

  lemma LikeIsOne(c: char, a: char, b: char, rule: Rule)
    requires Plain(rule, a) && Plain(rule, b) && Like(c, a) && Like(c, b)
    ensures a == b
  {
  }

  lemma LikePlain(c: char, a: char, rule: Rule)
    requires Plain(rule, a) && Like(c, a)
    ensures c != '[' && !Stop(Secret, c) && (rule != Url ==> !Separator(c))
  {
  }

  lemma {:induction false} FirstWordIs(ws: seq<string>, s: string)
    ensures var n := FirstWord(ws, s); n > 0 ==> exists w <- ws :: StartsWith(s, w) && |w| == n
  {
    if ws != [] {
      FirstWordIs(ws[1..], s);
      if StartsWith(s, ws[0]) {
        assert ws[0] in ws;
      } else if FirstWord(ws[1..], s) > 0 {
        var w :| w in ws[1..] && StartsWith(s, w) && |w| == FirstWord(ws[1..], s);
        assert w in ws;
      }
    }
  }

  /** A text that starts with a word of the list starts with no other. */
  lemma {:induction false} OnlyWord(rule: Rule, ws: seq<string>, s: string, w: string)
    requires PlainWords(rule, ws) && AllApart(ws) && w in ws && StartsWith(s, w)
    ensures FirstWord(ws, s) == |w|
  {
    if ws[0] != w {
      var i :| 0 < i < |ws| && ws[i] == w;
      assert Apart(ws[0], ws[i]);
      var k :| 0 <= k < |ws[0]| && k < |w| && ws[0][k] != w[k];
      assert PlainWord(rule, ws[0]) && PlainWord(rule, w) by {
        assert ws[0] in ws;
      }
      if StartsWith(s, ws[0]) {
        LikeIsOne(s[k], ws[0][k], w[k], rule);
        assert false;
      }
      assert ws[1..][i - 1] == w;
      forall a, b | 0 <= a < b < |ws[1..]| ensures Apart(ws[1..][a], ws[1..][b]) {
        assert Apart(ws[a + 1], ws[b + 1]);
      }
      OnlyWord(rule, ws[1..], s, w);
    }
  }

  lemma WordStable(rule: Rule, s: string, t: string, n: nat)
    requires WordLen(rule, s) == n > 0 && n <= |t| && t[..n] == s[..n]
    ensures WordLen(rule, t) == n
  {
    var ws := Words(rule);
    FirstWordIs(ws, s);
    var w :| w in ws && StartsWith(s, w) && |w| == n;
    forall i | 0 <= i < |w| ensures Like(t[i], w[i]) {
      assert t[..n][i] == s[..n][i];
    }
    WordsArePlain(rule);
    WordsAreApart(rule, ws);
    OnlyWord(rule, ws, t, w);
  }

  lemma WordChars(rule: Rule, s: string, k: nat)
    requires k < WordLen(rule, s)
    ensures s[k] != '[' && !Stop(Secret, s[k]) && (rule != Url ==> !Separator(s[k]))
  {
    var ws := Words(rule);
    FirstWordIs(ws, s);
    var w :| w in ws && StartsWith(s, w) && |w| == WordLen(rule, s);
    WordsArePlain(rule);
    assert PlainWord(rule, w);
    LikePlain(s[k], w[k], rule);
  }

  // ---- Heads ----

  lemma SkipStable(s: string, t: string, i: nat, j: nat)
    requires i <= j < |s| && j < |t| && SkipSpaces(s, i) == j && s[..j] == t[..j] && !IsSpace(t[j])
    ensures SkipSpaces(t, i) == j
  {
    SkipTo(t, i, j, s);
  }

  lemma {:induction false} SkipTo(t: string, i: nat, j: nat, s: string)
    requires i <= j < |s| && j < |t| && s[..j] == t[..j] && !IsSpace(t[j])
    requires forall k | i <= k < j :: IsSpace(s[k])
    ensures SkipSpaces(t, i) == j
    decreases j - i
  {
    if i < j {
      assert t[i] == t[..j][i] == s[..j][i];
      SkipTo(t, i + 1, j, s);
    }
  }

  lemma HeadChars(rule: Rule, s: string, h: nat)
    requires HeadLen(rule, s) == Some(h)
    ensures forall k | 0 <= k < h :: s[k] != '['
  {
    var w := WordLen(rule, s);
    forall k | 0 <= k < h ensures s[k] != '[' {
      if k < w {
        WordChars(rule, s, k);
      }
    }
  }

  lemma SamePrefix(s: string, t: string, h: nat, k: nat)
    requires k < h <= |s| && h <= |t| && t[..h] == s[..h]
    ensures t[..k] == s[..k] && t[k] == s[k]
  {
    assert t[..k] == t[..h][..k] && s[..k] == s[..h][..k] && t[k] == t[..h][k] && s[k] == s[..h][k];
  }

  /** A head is recognised by its own characters and by something other than a space after it. */
  lemma HeadStable(rule: Rule, s: string, t: string, h: nat)
    requires HeadLen(rule, s) == Some(h) && h < |s| && !IsSpace(s[h])
    requires h < |t| && t[..h] == s[..h] && !IsSpace(t[h])
    ensures HeadLen(rule, t) == Some(h)
  {
    var w := WordLen(rule, s);
    if rule == Url {
      WordStable(rule, s, t, w);
    } else {
      var p := SkipSpaces(s, w);
      assert w <= p < h;
      assert WordLen(rule, t) == w by {
        SamePrefix(s, t, h, w);
        WordStable(rule, s, t, w);
      }
      assert SkipSpaces(t, w) == p by {
        SamePrefix(s, t, h, p);
        SkipStable(s, t, w, p);
      }
      assert SkipSpaces(t, p + 1) == h && t[p] == s[p] by {
        SamePrefix(s, t, h, p);
        SkipStable(s, t, p + 1, h);
      }
    }
  }

  /** A head inside a kept head ends where that one ends: it shares the one separator. */
  lemma InnerHead(rule: Rule, s: string, keep: nat, t: string, i: nat, h: nat)
    requires rule != Url && HeadAt(rule, s, keep)
    requires keep < |t| && t[..keep] == s[..keep] && t[keep] == '[' && 0 < i < keep
    requires HeadLen(rule, t[i..]) == Some(h)
    ensures i + h == keep
  {
    var w := WordLen(rule, s);
    var p := SkipSpaces(s, w);
    var u := t[i..];
    var q := SkipSpaces(u, WordLen(rule, u));
    HeadChars(rule, u, h);
    assert u[keep - i] == '[';
    assert i + h <= keep;
    assert s[..keep][i + q] == t[..keep][i + q] == u[q];
    forall k | 0 <= k < keep && k != p ensures !Separator(s[k]) {
      if k < w {
        WordChars(rule, s, k);
      }
    }
    assert i + q == p;
    forall k | q < k < keep - i ensures IsSpace(u[k]) {
      assert s[..keep][i + k] == t[..keep][i + k] == u[k];
    }
    SkipTo(u, q + 1, keep - i, u);
  }

  // ---- What a substitution leaves alone ----

  predicate NoBracket(s: string, k: nat)
    requires k <= |s|
  {
    forall j | 0 <= j < k :: s[j] != '['
  }

  lemma SubMiss(rule: Rule, s: string)
    requires s != "" && Match(rule, s) == None
    ensures Sub(rule, s) == [s[0]] + Sub(rule, s[1..])
  {
  }

  lemma SubHit(rule: Rule, s: string, hit: Hit)
    requires Match(rule, s) == Some(hit)
    ensures Sub(rule, s) == s[..hit.keep] + Marker(rule) + Sub(rule, s[hit.len..])
  {
  }

  lemma TailNoBracket(c: char, t1: string, t: string, k: nat)
    requires t == [c] + t1 && 0 < k <= |t| && NoBracket(t, k)
    ensures NoBracket(t1, k - 1)
  {
    forall j | 0 <= j < k - 1 ensures t1[j] != '[' {
      assert t[j + 1] == t1[j];
    }
  }

  lemma PrefixesAgree(s: string, t: string, t1: string, k: nat)
    requires s != "" && t == [s[0]] + t1 && 0 < k <= |t|
    requires k - 1 <= |s| - 1 && t1[..k - 1] == s[1..][..k - 1]
    ensures t[..k] == s[..k]
  {
    assert t[..k] == [s[0]] + t1[..k - 1] && s[..k] == [s[0]] + s[1..][..k - 1];
  }

  /** Up to its first bracket the result is the text itself. */
  lemma {:induction false} Agrees(rule: Rule, s: string, t: string, k: nat)
    requires t == Sub(rule, s) && k <= |t| && NoBracket(t, k)
    ensures k <= |s| && t[..k] == s[..k]
    decreases |s|
  {
    if s != "" && k > 0 {
      var m := Match(rule, s);
      if m == None {
        SubMiss(rule, s);
        var t1 := Sub(rule, s[1..]);
        TailNoBracket(s[0], t1, t, k);
        Agrees(rule, s[1..], t1, k - 1);
        PrefixesAgree(s, t, t1, k);
      } else {
        SubHit(rule, s, m.value);
        HitPrefix(s, t, m.value.keep, Marker(rule), Sub(rule, s[m.value.len..]), k);
      }
    }
  }

  lemma HitPrefix(s: string, t: string, keep: nat, marker: string, rest: string, k: nat)
    requires keep <= |s| && t == s[..keep] + marker + rest && marker != "" && marker[0] == '['
    requires k <= |t| && NoBracket(t, k)
    ensures k <= keep && t[..k] == s[..k]
  {
    assert t[keep] == '[';
    assert t[..keep] == s[..keep];
    assert t[..k] == t[..keep][..k] && s[..k] == s[..keep][..k];
  }

  /** A value character of the rule; before a URL, of any rule. */
  predicate ValueChar(rule: Rule, c: char) {
    !Stop(if rule == Auth then Auth else Secret, c)
  }

  lemma HitStarts(rule: Rule, s: string)
    requires Match(rule, s).Some?
    ensures ValueChar(rule, s[Match(rule, s).value.keep])
  {
    MatchIff(rule, s);
    if rule == Url {
      WordChars(rule, s, 0);
    }
  }

  predicate BracketOrValue(rule: Rule, c: char) {
    c == '[' || ValueChar(rule, c)
  }

  lemma BracketInHit(rule: Rule, s: string, t: string, keep: nat, marker: string, rest: string, k: nat)
    requires keep < |s| && t == s[..keep] + marker + rest && marker != "" && marker[0] == '[' && ValueChar(rule, s[keep])
    requires k < |t| && NoBracket(t, k) && t[k] == '['
    ensures k < |s| && BracketOrValue(rule, s[k])
  {
    HitPrefix(s, t, keep, marker, rest, k);
    if k < keep {
      assert t[k] == s[k];
    }
  }

  lemma BracketAtHit(rule: Rule, s: string, t: string, k: nat)
    requires t == Sub(rule, s) && Match(rule, s).Some? && k < |t| && NoBracket(t, k) && t[k] == '['
    ensures k < |s| && BracketOrValue(rule, s[k])
  {
    var hit := Match(rule, s).value;
    SubHit(rule, s, hit);
    HitStarts(rule, s);
    BracketInHit(rule, s, t, hit.keep, Marker(rule), Sub(rule, s[hit.len..]), k);
  }

  /** The first bracket of the result stands where the text has a bracket or starts a value. */
  lemma {:induction false} FirstBracket(rule: Rule, s: string, t: string, k: nat)
    requires t == Sub(rule, s) && k < |t| && NoBracket(t, k) && t[k] == '['
    ensures k < |s| && BracketOrValue(rule, s[k])
    decreases |s|
  {
    if s != "" {
      if Match(rule, s).Some? {
        BracketAtHit(rule, s, t, k);
      } else {
        SubMiss(rule, s);
        if k > 0 {
          TailNoBracket(s[0], Sub(rule, s[1..]), t, k);
          FirstBracket(rule, s[1..], Sub(rule, s[1..]), k - 1);
        }
      }
    }
  }

  // ---- Credentials stay redacted ----

  /** The marker, and then the end of the text or a character that ends a value. */
  predicate Redacted(rule: Rule, v: string) {
    |v| >= 10 && v[..10] == REDACTED && (|v| > 10 ==> Stop(rule, v[10]))
  }

  ghost predicate CleanStart(rule: Rule, u: string) {
    forall h: nat | HeadAt(rule, u, h) :: Redacted(rule, u[h..])
  }

  /** Wherever something credential-shaped occurs in the text, its value is the marker. */
  ghost predicate Clean(rule: Rule, t: string) {
    forall i | 0 <= i <= |t| :: CleanStart(rule, t[i..])
  }

  lemma CleanTail(rule: Rule, t: string, n: nat)
    requires Clean(rule, t) && n <= |t|
    ensures Clean(rule, t[n..])
  {
    forall i | 0 <= i <= |t[n..]| ensures CleanStart(rule, t[n..][i..]) {
      assert t[n..][i..] == t[n + i..];
    }
  }

  lemma CleanJoin(rule: Rule, p: string, u: string)
    requires Clean(rule, u) && forall i | 0 <= i < |p| :: CleanStart(rule, (p + u)[i..])
    ensures Clean(rule, p + u)
  {
    forall i | 0 <= i <= |p + u| ensures CleanStart(rule, (p + u)[i..]) {
      if i >= |p| {
        assert (p + u)[i..] == u[i - |p|..];
      }
    }
  }

  lemma NothingAtEnd(rule: Rule)
    ensures Clean(rule, "")
  {
  }

  /** The first letters of the words. */
  predicate Begins(w: string) {
    |w| >= 3
    && (|| (w[0] == 'a' && w[1] == 'u') || (w[0] == 'a' && w[1] == 'c' && w[2] == 'c') || (w[0] == 'a' && w[1] == 'p')
        || (w[0] == 'r' && w[1] == 'e' && w[2] == 'f') || (w[0] == 'c' && w[1] == 'l') || w[0] == 'p'
        || (w[0] == 't' && w[1] == 'o') || w[0] == 'k' || w[0] == 'h')
  }

  lemma SecretWordsBegin(ws: seq<string>)
    requires ws == Words(Secret)
    ensures forall i | 0 <= i < 9 :: Begins(ws[i])
  {
    assert Begins(ws[0]);
    assert Begins(ws[1]);
    assert Begins(ws[2]);
    assert Begins(ws[3]);
    assert Begins(ws[4]);
    assert Begins(ws[5]);
  }

  lemma WordsBegin(rule: Rule)
    ensures forall w <- Words(rule) :: Begins(w)
  {
    if rule == Secret {
      SecretWordsBegin(Words(Secret));
    }
  }

  /** No word starts with these characters, whatever follows. */
  predicate Dead(a: char, b: char, c: char) {
    || (a != 'A' && a != 'C' && a != 'R' && a != 'T')
    || (a == 'A' && b == 'C' && c == 'T') || (a == 'C' && b == 'T') || (a == 'T' && b == 'E')
    || (a == 'R' && ((b == 'E' && c == 'D') || b == 'L'))
  }

  lemma DeadStart(u: string, w: string)
    requires Begins(w) && |u| >= 3 && Dead(u[0], u[1], u[2]) && u[0] in "[]_REDACTUL"
    ensures !StartsWith(u, w)
  {
  }

  lemma MarkerLetters(rule: Rule, m: string, i: nat)
    requires m == Marker(rule) && i < |m|
    ensures m[i] in "[]_REDACTUL"
    ensures i + 2 < |m| ==> Dead(m[i], m[i + 1], m[i + 2])
    ensures i + 2 >= |m| ==> m[i] == ']' || m[i] == 'D' || m[i] == 'L'
  {
  }

  lemma NoWordInMarker(other: Rule, m: string, x: string, i: nat, u: string, w: string)
    requires m == Marker(other) && i < |m| && u == (m + x)[i..] && Begins(w)
    ensures !StartsWith(u, w)
  {
    MarkerLetters(other, m, i);
    assert u[0] == m[i];
    if i + 2 < |m| {
      assert u[1] == m[i + 1] && u[2] == m[i + 2];
      DeadStart(u, w);
    }
  }

  /** Nothing credential-shaped and no URL begins inside a marker. */
  lemma MarkerIsDead(rule: Rule, other: Rule, m: string, x: string, i: nat)
    requires m == Marker(other) && i < |m|
    ensures WordLen(rule, (m + x)[i..]) == 0
  {
    var u := (m + x)[i..];
    FirstWordIs(Words(rule), u);
    WordsBegin(rule);
    forall w | w in Words(rule) ensures !StartsWith(u, w) {
      NoWordInMarker(other, m, x, i, u, w);
    }
  }

  lemma DeadIsClean(rule: Rule, u: string)
    requires WordLen(rule, u) == 0
    ensures CleanStart(rule, u)
  {
  }

  /** A value character of the result, or its first bracket, is a value character of the text. */
  lemma ValueComesFromText(rule: Rule, step: Rule, s: string, t: string, h: nat)
    requires t == Sub(step, s) && h < |t| && NoBracket(t, h) && !Stop(rule, t[h])
    requires step == rule || (rule != Url && step == Url) || (rule == Auth && step == Secret)
    ensures h < |s| && t[..h] == s[..h] && !Stop(rule, s[h])
    ensures t[h] != '[' ==> s[h] == t[h]
  {
    Agrees(step, s, t, h);
    if t[h] != '[' {
      Agrees(step, s, t, h + 1);
      assert t[..h + 1][h] == s[..h + 1][h];
    } else {
      FirstBracket(step, s, t, h);
    }
  }

  /** A head at the start of the result is a head of the text, value and all. */
  lemma HeadComesFromText(rule: Rule, step: Rule, s: string, t: string, h: nat)
    requires t == Sub(step, s) && HeadAt(rule, t, h)
    requires step == rule || (rule != Url && step == Url) || (rule == Auth && step == Secret)
    ensures h < |s| && t[..h] == s[..h] && NoBracket(t, h) && HeadAt(rule, s, h)
    ensures t[h] != '[' ==> s[h] == t[h]
  {
    HeadChars(rule, t, h);
    ValueComesFromText(rule, step, s, t, h);
    HeadStable(rule, t, s, h);
  }

  lemma AfterStop(rule: Rule, s: string)
    requires s != "" && Stop(Secret, s[0])
    ensures Sub(rule, s) != "" && Sub(rule, s)[0] == s[0]
  {
    MatchIff(rule, s);
    if Match(rule, s).Some? {
      var h: nat :| HeadAt(rule, s, h);
      WordChars(rule, s, 0);
      assert false;
    }
    SubMiss(rule, s);
  }

  lemma RedactedThen(rule: Rule, step: Rule, rest: string)
    requires rule != Url && (rest != "" ==> Stop(rule, rest[0]))
    ensures Redacted(rule, REDACTED + Sub(step, rest))
  {
    var v := REDACTED + Sub(step, rest);
    assert v[..10] == REDACTED;
    if rest != "" {
      AfterStop(step, rest);
      assert v[10] == Sub(step, rest)[0];
    }
  }

  /** The part of the result that one match makes: only its kept head can hold heads. */
  lemma HitIsClean(rule: Rule, step: Rule, head: string, u: string, t: string)
    requires t == head + Marker(step) + u && Clean(rule, u)
    requires forall i | 0 <= i < |head| :: CleanStart(rule, t[i..])
    ensures Clean(rule, t)
  {
    var m := Marker(step);
    var p := head + m;
    forall i | 0 <= i < |p| ensures CleanStart(rule, (p + u)[i..]) {
      if i >= |head| {
        assert (p + u)[i..] == (m + u)[i - |head|..];
        MarkerIsDead(rule, step, m, u, i - |head|);
        DeadIsClean(rule, (p + u)[i..]);
      }
    }
    CleanJoin(rule, p, u);
  }

  lemma KeptHeadIsRedacted(rule: Rule, s: string, keep: nat, t: string, i: nat)
    requires rule != Url && HeadAt(rule, s, keep) && i < keep
    requires keep < |t| && t[..keep] == s[..keep] && Redacted(rule, t[keep..])
    ensures CleanStart(rule, t[i..])
  {
    assert t[keep] == t[keep..][..10][0] == '[';
    forall h: nat | HeadAt(rule, t[i..], h) ensures Redacted(rule, t[i..][h..]) {
      if i == 0 {
        HeadStable(rule, s, t, keep);
        assert t[0..] == t;
      } else {
        InnerHead(rule, s, keep, t, i, h);
      }
      assert t[i..][h..] == t[keep..];
    }
  }

  lemma HitSlices(s: string, keep: nat, u: string, t: string)
    requires keep <= |s| && t == s[..keep] + REDACTED + u
    ensures |t| >= keep + 10 && t[keep..] == REDACTED + u && t[..keep] == s[..keep]
  {
  }

  lemma EstablishedHit(rule: Rule, s: string, hit: Hit, u: string, t: string)
    requires rule != Url && Match(rule, s) == Some(hit) && u == Sub(rule, s[hit.len..]) && Clean(rule, u)
    requires t == s[..hit.keep] + Marker(rule) + u
    ensures Clean(rule, t)
  {
    MatchIff(rule, s);
    RedactedThen(rule, rule, s[hit.len..]);
    HitSlices(s, hit.keep, u, t);
    forall i | 0 <= i < hit.keep ensures CleanStart(rule, t[i..]) {
      KeptHeadIsRedacted(rule, s, hit.keep, t, i);
    }
    HitIsClean(rule, rule, s[..hit.keep], u, t);
  }

  lemma EstablishedMiss(rule: Rule, s: string, t: string)
    requires t == Sub(rule, s) && Match(rule, s) == None
    ensures forall h: nat :: !HeadAt(rule, t, h)
  {
    MatchIff(rule, s);
    forall h: nat ensures !HeadAt(rule, t, h) {
      if HeadAt(rule, t, h) {
        HeadComesFromText(rule, rule, s, t, h);
      }
    }
  }

  lemma MissJoin(rule: Rule, c: char, u: string)
    requires Clean(rule, u) && CleanStart(rule, [c] + u)
    ensures Clean(rule, [c] + u)
  {
    assert ([c] + u)[0..] == [c] + u;
    CleanJoin(rule, [c], u);
  }

  /** After its own substitution, whatever looks like a credential has the marker for a value. */
  lemma {:induction false} Established(rule: Rule, s: string)
    requires rule != Url
    ensures Clean(rule, Sub(rule, s))
    decreases |s|
  {
    if s == "" {
      NothingAtEnd(rule);
    } else {
      var m := Match(rule, s);
      if m == None {
        Established(rule, s[1..]);
        SubMiss(rule, s);
        EstablishedMiss(rule, s, Sub(rule, s));
        MissJoin(rule, s[0], Sub(rule, s[1..]));
      } else {
        Established(rule, s[m.value.len..]);
        SubHit(rule, s, m.value);
        EstablishedHit(rule, s, m.value, Sub(rule, s[m.value.len..]), Sub(rule, s));
      }
    }
  }

  // ---- Later substitutions keep the markers ----

  lemma DeadMiss(step: Rule, s: string)
    requires s != "" && WordLen(step, s) == 0
    ensures Sub(step, s) == [s[0]] + Sub(step, s[1..])
  {
  }

  ghost predicate DeadUpTo(step: Rule, s: string, n: nat)
    requires n <= |s|
  {
    forall i | 0 <= i < n :: WordLen(step, s[i..]) == 0
  }

  lemma DeadTail(step: Rule, s: string, n: nat)
    requires 0 < n <= |s| && DeadUpTo(step, s, n)
    ensures WordLen(step, s) == 0 && DeadUpTo(step, s[1..], n - 1)
  {
    assert s[0..] == s;
    forall i | 0 <= i < n - 1 ensures WordLen(step, s[1..][i..]) == 0 {
      assert s[1..][i..] == s[i + 1..];
    }
  }

  lemma Reassociate(a: string, b: string, c: string)
    ensures a + (b + c) == (a + b) + c
  {
  }

  lemma SplitStep(s: string, n: nat)
    requires 0 < n <= |s|
    ensures s[..n] == [s[0]] + s[1..][..n - 1] && s[1..][n - 1..] == s[n..]
  {
  }

  lemma {:induction false} DeadRun(step: Rule, s: string, n: nat)
    requires n <= |s| && DeadUpTo(step, s, n)
    ensures Sub(step, s) == s[..n] + Sub(step, s[n..])
    decreases n
  {
    if n == 0 {
      assert s[0..] == s;
    } else {
      DeadTail(step, s, n);
      DeadMiss(step, s);
      DeadRun(step, s[1..], n - 1);
      SplitStep(s, n);
      Reassociate([s[0]], s[1..][..n - 1], Sub(step, s[n..]));
    }
  }

  lemma MarkerKept(step: Rule, s: string)
    requires |s| >= 10 && s[..10] == REDACTED
    ensures Sub(step, s) == REDACTED + Sub(step, s[10..])
  {
    assert s == REDACTED + s[10..];
    forall i | 0 <= i < 10 ensures WordLen(step, s[i..]) == 0 {
      MarkerIsDead(step, Auth, REDACTED, s[10..], i);
    }
    DeadRun(step, s, 10);
  }

  lemma RedactedKept(rule: Rule, step: Rule, s: string)
    requires rule != Url && Redacted(rule, s)
    ensures Redacted(rule, Sub(step, s))
  {
    MarkerKept(step, s);
    RedactedThen(rule, step, s[10..]);
  }

  lemma SecretRun(s: string, hit: Hit)
    requires Match(Secret, s) == Some(hit)
    ensures hit.len == RunEnd(Secret, s, hit.keep)
  {
  }

  lemma {:induction false} RunIs(rule: Rule, s: string, i: nat, j: nat)
    requires i <= j <= |s| && (forall k | i <= k < j :: !Stop(rule, s[k])) && (j < |s| ==> Stop(rule, s[j]))
    ensures RunEnd(rule, s, i) == j
    decreases j - i
  {
    if i < j {
      RunIs(rule, s, i + 1, j);
    }
  }

  lemma RunOverMarker(s: string, keep: nat)
    requires keep <= |s| && Redacted(Auth, s[keep..])
    ensures RunEnd(Secret, s, keep) == keep + 10 && (keep + 10 < |s| ==> Stop(Auth, s[keep + 10]))
  {
    var v := s[keep..];
    forall k | keep <= k < keep + 10 ensures !Stop(Secret, s[k]) {
      assert s[k] == v[k - keep] == v[..10][k - keep] == REDACTED[k - keep];
    }
    if |v| > 10 {
      assert v[10] == s[keep + 10];
    }
    RunIs(Secret, s, keep, keep + 10);
  }

  /** Redacting a value that is already the marker changes nothing. */
  lemma MarkerAgain(s: string, hit: Hit)
    requires Match(Secret, s) == Some(hit) && Redacted(Auth, s[hit.keep..])
    ensures hit.len == hit.keep + 10 && (hit.len < |s| ==> Stop(Auth, s[hit.len]))
  {
    SecretRun(s, hit);
    RunOverMarker(s, hit.keep);
  }

  /** The substitutions that come after one for the rule. */
  predicate Later(rule: Rule, step: Rule) {
    rule != Url && (step == Url || (rule == Auth && step == Secret))
  }

  lemma NoBracketInKept(step: Rule, s: string, hit: Hit)
    requires Match(step, s) == Some(hit)
    ensures NoBracket(s, hit.keep)
  {
    MatchIff(step, s);
    if step != Url {
      HeadChars(step, s, hit.keep);
    }
  }

  /** A redacted value stays redacted through a later substitution, wherever it stands. */
  lemma {:induction false} ValueKept(rule: Rule, step: Rule, s: string, t: string, h: nat)
    requires Later(rule, step) && t == Sub(step, s) && h < |s| && h < |t| && t[..h] == s[..h]
    requires NoBracket(t, h) && t[h] == '[' && Redacted(rule, s[h..])
    ensures Redacted(rule, t[h..])
    decreases |s|
  {
    if Match(step, s).Some? {
      ValueKeptAtHit(rule, step, s, t, h, Match(step, s).value);
    } else if h == 0 {
      assert s[0..] == s && t[0..] == t;
      RedactedKept(rule, step, s);
    } else {
      SubMiss(step, s);
      ValueKeptBehind(rule, step, s, t, h);
    }
  }

  lemma Shifted(s: string, s1: string, h: nat)
    requires 0 < h <= |s| && s1 == s[1..]
    ensures s1[h - 1..] == s[h..] && s1[..h - 1] == s[..h][1..]
  {
  }

  lemma ValueKeptBehind(rule: Rule, step: Rule, s: string, t: string, h: nat)
    requires Later(rule, step) && 0 < h < |s| && h < |t| && t == [s[0]] + Sub(step, s[1..]) && t[..h] == s[..h]
    requires NoBracket(t, h) && t[h] == '[' && Redacted(rule, s[h..])
    ensures Redacted(rule, t[h..])
    decreases |s|, 0
  {
    var s1, t1 := s[1..], Sub(step, s[1..]);
    TailNoBracket(s[0], t1, t, h);
    assert t1 == t[1..];
    Shifted(s, s1, h);
    Shifted(t, t1, h);
    ValueKept(rule, step, s1, t1, h - 1);
  }

  lemma RedactedStart(rule: Rule, v: string, h: nat)
    requires h <= |v| && Redacted(rule, v[h..])
    ensures h < |v| && v[h] == '['
  {
    assert v[h..][..10][0] == REDACTED[0];
  }

  lemma ValueStartsHit(rule: Rule, step: Rule, s: string, t: string, h: nat, hit: Hit)
    requires Later(rule, step) && t == Sub(step, s) && h < |s| && h < |t|
    requires NoBracket(t, h) && Redacted(rule, s[h..]) && Match(step, s) == Some(hit)
    ensures h == hit.keep && step == Secret && t == s[..h] + REDACTED + Sub(step, s[hit.len..])
  {
    RedactedStart(rule, s, h);
    SubHit(step, s, hit);
    HitPrefix(s, t, hit.keep, Marker(step), Sub(step, s[hit.len..]), h);
    NoBracketInKept(step, s, hit);
    if step == Url {
      MatchIff(step, s);
      UrlStart(s);
      assert false;
    }
  }

  lemma ValueKeptAtHit(rule: Rule, step: Rule, s: string, t: string, h: nat, hit: Hit)
    requires Later(rule, step) && t == Sub(step, s) && h < |s| && h < |t|
    requires NoBracket(t, h) && Redacted(rule, s[h..]) && Match(step, s) == Some(hit)
    ensures Redacted(rule, t[h..])
  {
    ValueStartsHit(rule, step, s, t, h, hit);
    SecondMarker(s, hit, t);
  }

  lemma SecondMarker(s: string, hit: Hit, t: string)
    requires Match(Secret, s) == Some(hit) && Redacted(Auth, s[hit.keep..])
    requires t == s[..hit.keep] + REDACTED + Sub(Secret, s[hit.len..])
    ensures hit.keep <= |t| && Redacted(Auth, t[hit.keep..])
  {
    MarkerAgain(s, hit);
    RedactedThen(Auth, Secret, s[hit.len..]);
    HitSlices(s, hit.keep, Sub(Secret, s[hit.len..]), t);
  }

  lemma UrlStart(s: string)
    requires Match(Url, s).Some?
    ensures s[0] != '['
  {
    WordChars(Url, s, 0);
  }

  lemma PreservedMiss(rule: Rule, step: Rule, s: string, t: string)
    requires Later(rule, step) && s != "" && t == Sub(step, s) && CleanStart(rule, s)
    ensures CleanStart(rule, t)
  {
    forall h: nat | HeadAt(rule, t, h) ensures Redacted(rule, t[h..]) {
      HeadComesFromText(rule, step, s, t, h);
      assert Redacted(rule, s[h..]);
      assert s[h] == s[h..][..10][0] == '[';
      assert t[h] == '[';
      ValueKept(rule, step, s, t, h);
    }
  }

  lemma InHeadSlices(s: string, keep: nat, rest: string, t: string, i: nat)
    requires keep <= |s| && i < keep && t == s[..keep] + REDACTED + rest
    ensures var d := keep - i;
            && |t[i..]| > d && t[i..][d] == '[' && t[i..][..d] == s[i..][..d]
            && t[i..][d..] == REDACTED + rest && s[i..][d..] == s[keep..]
  {
    var d := keep - i;
    assert t[keep..] == REDACTED + rest;
    assert t[i..][d..] == t[keep..];
    assert t[i..][d] == t[keep] == REDACTED[0];
  }

  /** A shorter head would have had an unredacted value before. */
  lemma NoShorterHead(u: string, v: string, d: nat, h: nat)
    requires d <= |u| && d <= |v| && h < d && u[..d] == v[..d] && NoBracket(v, d) && CleanStart(Auth, v)
    ensures !HeadAt(Auth, u, h)
  {
    assert u[..h] == u[..d][..h] && v[..h] == v[..d][..h];
    assert u[h] == u[..d][h] && v[h] == v[..d][h];
    if HeadAt(Auth, u, h) {
      HeadStable(Auth, u, v, h);
      RedactedStart(Auth, v, h);
    }
  }

  lemma SameHead(u: string, v: string, h: nat)
    requires h < |u| && h < |v| && u[..h] == v[..h] && !Stop(Auth, v[h])
    requires HeadAt(Auth, u, h) && CleanStart(Auth, v)
    ensures Redacted(Auth, v[h..])
  {
    HeadStable(Auth, u, v, h);
  }

  lemma HeadAtMarker(u: string, v: string, d: nat, rest: string)
    requires d < |u| && d < |v| && u[..d] == v[..d] && u[d] == '[' && u[d..] == REDACTED + Sub(Secret, rest)
    requires NoBracket(v, d) && !Stop(Auth, v[d]) && CleanStart(Auth, v)
    requires Redacted(Auth, v[d..]) && rest != "" ==> Stop(Auth, rest[0])
    ensures CleanStart(Auth, u)
  {
    forall h: nat | HeadAt(Auth, u, h) ensures Redacted(Auth, u[h..]) {
      HeadEndsThere(u, v, d, h);
      SameHead(u, v, d);
      RedactedThen(Auth, Secret, rest);
    }
  }

  lemma MarkerAgainThere(s: string, hit: Hit, v: string, d: nat)
    requires Match(Secret, s) == Some(hit) && d <= |v| && v[d..] == s[hit.keep..]
    ensures Redacted(Auth, v[d..]) && s[hit.len..] != "" ==> Stop(Auth, s[hit.len..][0])
  {
    if Redacted(Auth, v[d..]) {
      MarkerAgain(s, hit);
    }
  }

  lemma NoBracketBehind(s: string, keep: nat, i: nat)
    requires i <= keep <= |s| && NoBracket(s, keep)
    ensures NoBracket(s[i..], keep - i)
  {
  }

  /** Inside the kept head of a later match, a head of the rule can only share its value. */
  lemma PreservedInHead(s: string, hit: Hit, t: string, i: nat)
    requires Match(Secret, s) == Some(hit) && i < hit.keep && CleanStart(Auth, s[i..])
    requires t == s[..hit.keep] + REDACTED + Sub(Secret, s[hit.len..])
    ensures CleanStart(Auth, t[i..])
  {
    NoBracketInKept(Secret, s, hit);
    NoBracketBehind(s, hit.keep, i);
    HitStarts(Secret, s);
    InHeadSlices(s, hit.keep, Sub(Secret, s[hit.len..]), t, i);
    MarkerAgainThere(s, hit, s[i..], hit.keep - i);
    HeadAtMarker(t[i..], s[i..], hit.keep - i, s[hit.len..]);
  }

  lemma HeadEndsThere(u: string, v: string, d: nat, h: nat)
    requires d < |u| && d <= |v| && u[..d] == v[..d] && u[d] == '[' && NoBracket(v, d) && CleanStart(Auth, v)
    requires HeadAt(Auth, u, h)
    ensures h == d
  {
    HeadChars(Auth, u, h);
    if h < d {
      NoShorterHead(u, v, d, h);
    }
  }

  lemma PreservedHit(rule: Rule, step: Rule, s: string, hit: Hit, u: string, t: string)
    requires Later(rule, step) && Match(step, s) == Some(hit) && Clean(rule, s)
    requires u == Sub(step, s[hit.len..]) && Clean(rule, u) && t == s[..hit.keep] + Marker(step) + u
    ensures Clean(rule, t)
  {
    MatchIff(step, s);
    forall i | 0 <= i < hit.keep ensures CleanStart(rule, t[i..]) {
      PreservedInHead(s, hit, t, i);
    }
    HitIsClean(rule, step, s[..hit.keep], u, t);
  }

  /** The later substitutions neither uncover a value nor put a new one behind a head. */
  lemma {:induction false} Preserved(rule: Rule, step: Rule, s: string)
    requires Later(rule, step) && Clean(rule, s)
    ensures Clean(rule, Sub(step, s))
    decreases |s|
  {
    if s == "" {
      NothingAtEnd(rule);
    } else if Match(step, s).Some? {
      var hit := Match(step, s).value;
      CleanTail(rule, s, hit.len);
      Preserved(rule, step, s[hit.len..]);
      SubHit(step, s, hit);
      PreservedHit(rule, step, s, hit, Sub(step, s[hit.len..]), Sub(step, s));
    } else {
      CleanTail(rule, s, 1);
      Preserved(rule, step, s[1..]);
      SubMiss(step, s);
      assert s[0..] == s;
      PreservedMiss(rule, step, s, Sub(step, s));
      MissJoin(rule, s[0], Sub(step, s[1..]));
    }
  }

  // ---- URLs ----

  lemma UrlMiss(s: string, t: string)
    requires t == Sub(Url, s) && Match(Url, s) == None
    ensures forall h: nat :: !HeadAt(Url, t, h)
  {
    EstablishedMiss(Url, s, t);
  }

  ghost predicate NoUrl(t: string) {
    forall i, h: nat | 0 <= i <= |t| :: !HeadAt(Url, t[i..], h)
  }

  lemma NoUrlJoin(p: string, u: string)
    requires NoUrl(u) && forall i, h: nat | 0 <= i < |p| :: !HeadAt(Url, (p + u)[i..], h)
    ensures NoUrl(p + u)
  {
    forall i, h: nat | 0 <= i <= |p + u| ensures !HeadAt(Url, (p + u)[i..], h) {
      if i >= |p| {
        assert (p + u)[i..] == u[i - |p|..];
      }
    }
  }

  /** The result of the last substitution holds no match of the URL expression. */
  lemma {:induction false} UrlsGone(s: string)
    ensures NoUrl(Sub(Url, s))
    decreases |s|
  {
    if s != "" {
      var t := Sub(Url, s);
      if Match(Url, s).Some? {
        var hit := Match(Url, s).value;
        var u, m := Sub(Url, s[hit.len..]), Marker(Url);
        UrlsGone(s[hit.len..]);
        SubHit(Url, s, hit);
        MatchIff(Url, s);
        assert s[..0] == "" && t == m + u;
        forall i, h: nat | 0 <= i < |m| ensures !HeadAt(Url, (m + u)[i..], h) {
          MarkerIsDead(Url, Url, m, u, i);
        }
        NoUrlJoin(m, u);
      } else {
        UrlsGone(s[1..]);
        SubMiss(Url, s);
        UrlMiss(s, t);
        assert t[0..] == t;
        NoUrlJoin([s[0]], Sub(Url, s[1..]));
      }
    }
  }

  /** Cutting a text short makes no match of its own. */
  lemma HeadInPrefix(rule: Rule, v: string, t: string, i: nat, h: nat)
    requires v <= t && i <= |v| && HeadAt(rule, v[i..], h)
    ensures HeadAt(rule, t[i..], h) && t[i..][h] == v[i..][h]
  {
    var a, b := v[i..], t[i..];
    assert b[..h] == a[..h] && b[h] == a[h];
    HeadStable(rule, a, b, h);
  }

  /** What a cut may leave of a redacted value: a non-empty piece of the marker, or all of it and
      then a character that ends the value. */
  predicate RedactedPiece(rule: Rule, v: string) {
    && v != ""
    && (if |v| <= 10 then v == REDACTED[..|v|] else v[..10] == REDACTED && Stop(rule, v[10]))
  }

  lemma PieceOfRedacted(rule: Rule, v: string, t: string)
    requires v <= t && v != "" && Redacted(rule, t)
    ensures RedactedPiece(rule, v)
  {
    if |v| <= 10 {
      assert v == t[..10][..|v|];
    } else {
      assert v[..10] == t[..10] && v[10] == t[10];
    }
  }

  lemma NoUrlInPrefix(r: string, t: string)
    requires r <= t && NoUrl(t)
    ensures NoUrl(r)
  {
    forall i, h: nat | 0 <= i <= |r| ensures !HeadAt(Url, r[i..], h) {
      if HeadAt(Url, r[i..], h) {
        HeadInPrefix(Url, r, t, i, h);
      }
    }
  }

  /** Every value behind a head in the text is a piece of the marker. */
  ghost predicate Pieces(rule: Rule, r: string) {
    forall i, h: nat | 0 <= i <= |r| && HeadAt(rule, r[i..], h) :: RedactedPiece(rule, r[i..][h..])
  }

  lemma PieceInPrefix(rule: Rule, r: string, t: string, i: nat, h: nat)
    requires r <= t && Clean(rule, t) && i <= |r| && HeadAt(rule, r[i..], h)
    ensures RedactedPiece(rule, r[i..][h..])
  {
    HeadInPrefix(rule, r, t, i, h);
    assert CleanStart(rule, t[i..]);
    assert r[i..][h..] <= t[i..][h..];
    PieceOfRedacted(rule, r[i..][h..], t[i..][h..]);
  }

  lemma PiecesInPrefix(rule: Rule, r: string, t: string)
    requires r <= t && Clean(rule, t)
    ensures Pieces(rule, r)
  {
    forall i, h: nat | 0 <= i <= |r| && HeadAt(rule, r[i..], h) ensures RedactedPiece(rule, r[i..][h..]) {
      PieceInPrefix(rule, r, t, i, h);
    }
  }

  /** The promise of the sanitizer: within the limit, on one line, without a URL, and with the marker,
      whole or cut short, for the value of everything that is credential-shaped. */
  lemma SanitizedIsSafe(text: string, limit: int, t: string, r: string)
    requires t == Replaced(text) && r == SanitizeSensitiveText(text, limit)
    ensures limit >= 0 ==> |r| <= limit
    ensures '\n' !in r
    ensures NoUrl(r) && Pieces(Auth, r) && Pieces(Secret, r)
  {
    ReplacedIsClean(text);
    ReplacedHasNoNewline(text);
    NoUrlInPrefix(r, t);
    PiecesInPrefix(Auth, r, t);
    PiecesInPrefix(Secret, r, t);
  }

  lemma ReplacedIsClean(text: string)
    ensures NoUrl(Replaced(text)) && Clean(Auth, Replaced(text)) && Clean(Secret, Replaced(text))
  {
    var a := Sub(Auth, FirstLine(text));
    var b := Sub(Secret, a);
    Established(Auth, FirstLine(text));
    Preserved(Auth, Secret, a);
    Established(Secret, a);
    Preserved(Auth, Url, b);
    Preserved(Secret, Url, b);
    UrlsGone(b);
  }

  // ---- One line ----

  lemma {:induction false} SubKeepsOut(rule: Rule, s: string, c: char)
    requires c !in s && c !in Marker(rule)
    ensures c !in Sub(rule, s)
    decreases |s|
  {
    if s != "" {
      if Match(rule, s).Some? {
        var hit := Match(rule, s).value;
        SubKeepsOut(rule, s[hit.len..], c);
        SubHit(rule, s, hit);
      } else {
        SubKeepsOut(rule, s[1..], c);
        SubMiss(rule, s);
      }
    }
  }

  lemma {:induction false} FirstLineHasNoNewline(s: string)
    ensures '\n' !in FirstLine(s) && FirstLine(s) <= s
    ensures FirstLine(s) == s || s[|FirstLine(s)|] == '\n'
  {
    if s != "" && s[0] != '\n' {
      FirstLineHasNoNewline(s[1..]);
      assert s == [s[0]] + s[1..];
    }
  }

  lemma ReplacedHasNoNewline(text: string)
    ensures '\n' !in Replaced(text)
  {
    FirstLineHasNoNewline(text);
    SubKeepsOut(Auth, FirstLine(text), '\n');
    SubKeepsOut(Secret, Sub(Auth, FirstLine(text)), '\n');
    SubKeepsOut(Url, Sub(Secret, Sub(Auth, FirstLine(text))), '\n');
  }

  // ---- What one match takes away ----

  /** The word in any mixture of upper and lower case. */
  predicate AnyCase(w: string, word: string) {
    |w| == |word| && forall i | 0 <= i < |w| :: LowerChar(w[i]) == word[i]
  }

  /** A letter matches itself and its capital; s, k and i match the long s, the Kelvin sign and the two
      Turkish letters besides. */
  lemma LikeExact(c: char, letter: char)
    requires 'a' <= letter <= 'z'
    ensures letter == 's' ==> (Like(c, letter) <==> c in "sS\U{17F}")
    ensures letter == 'k' ==> (Like(c, letter) <==> c in "kK\U{212A}")
    ensures letter == 'i' ==> (Like(c, letter) <==> c in "iI\U{130}\U{131}")
    ensures letter !in "ski" ==> (Like(c, letter) <==> LowerChar(c) == letter)
  {
  }

  predicate Spaces(s: string) {
    forall i | 0 <= i < |s| :: IsSpace(s[i])
  }

  /** The keywords of the two credential expressions. */
  predicate Keyword(rule: Rule, word: string) {
    || (rule == Auth && word == "authorization")
    || (rule == Secret && (|| word == "access_token" || word == "refresh_token" || word == "client_secret"
                           || word == "password" || word == "api_key" || word == "api-key" || word == "apikey"
                           || word == "token" || word == "key"))
  }

  /** A keyword, perhaps spaces, a colon or an equals sign, perhaps spaces. */
  predicate Heading(rule: Rule, w: string, word: string, a: string, sep: char, b: string) {
    Keyword(rule, word) && AnyCase(w, word) && Spaces(a) && (sep == ':' || sep == '=') && Spaces(b)
  }

  predicate ValueEnd(rule: Rule, c: char) {
    IsSpace(c) || c == ',' || c == ';' || (rule == Secret && c == '&')
  }

  /** A whole value: non-empty, without a character that ends it, and with one or nothing behind it. */
  predicate WholeValue(rule: Rule, v: string, rest: string) {
    && v != "" && (forall i | 0 <= i < |v| :: !ValueEnd(rule, v[i]))
    && (rest != "" ==> ValueEnd(rule, rest[0]))
  }

  lemma ValueEndIsStop(rule: Rule, c: char)
    requires rule != Url
    ensures ValueEnd(rule, c) <==> Stop(rule, c)
  {
  }

  lemma AnyCaseStarts(w: string, word: string, tail: string)
    requires AnyCase(w, word) && forall i | 0 <= i < |word| :: LowerChar(word[i]) == word[i]
    ensures StartsWith(w + tail, word)
  {
  }

  lemma KeywordIsWord(rule: Rule, word: string)
    requires Keyword(rule, word)
    ensures word in Words(rule) && word != "" && forall i | 0 <= i < |word| :: LowerChar(word[i]) == word[i]
  {
    var ws := Words(rule);
    if rule == Secret {
      assert ws[0] == "access_token" && ws[1] == "refresh_token" && ws[2] == "client_secret" && ws[3] == "password";
      assert ws[4] == "api_key" && ws[5] == "api-key" && ws[6] == "apikey" && ws[7] == "token" && ws[8] == "key";
    }
  }

  lemma {:induction false} SpacesSkipped(s: string, i: nat, j: nat)
    requires i <= j <= |s| && (forall k | i <= k < j :: IsSpace(s[k])) && (j < |s| ==> !IsSpace(s[j]))
    ensures SkipSpaces(s, i) == j
    decreases j - i
  {
    if i < j {
      SpacesSkipped(s, i + 1, j);
    }
  }

  lemma KeywordLen(rule: Rule, w: string, word: string, tail: string)
    requires Keyword(rule, word) && AnyCase(w, word)
    ensures WordLen(rule, w + tail) == |word|
  {
    KeywordIsWord(rule, word);
    AnyCaseStarts(w, word, tail);
    WordsArePlain(rule);
    WordsAreApart(rule, Words(rule));
    OnlyWord(rule, Words(rule), w + tail, word);
  }

  function HeadingText(w: string, a: string, sep: char, b: string): string {
    w + a + [sep] + b
  }

  lemma HeadingChars(rule: Rule, w: string, word: string, a: string, sep: char, b: string, tail: string, s: string)
    requires Heading(rule, w, word, a, sep, b) && tail != "" && s == HeadingText(w, a, sep, b) + tail
    ensures var p, h := |w| + |a|, |w| + |a| + 1 + |b|;
            && |s| == h + |tail| && Separator(s[p]) && s[h] == tail[0]
            && (forall k | |w| <= k < p :: IsSpace(s[k]))
            && (forall k | p < k < h :: IsSpace(s[k]))
  {
    var p, h := |w| + |a|, |w| + |a| + 1 + |b|;
    forall k | |w| <= k < p ensures IsSpace(s[k]) {
      assert s[k] == a[k - |w|];
    }
    forall k | p < k < h ensures IsSpace(s[k]) {
      assert s[k] == b[k - p - 1];
    }
  }

  lemma HeadingWord(rule: Rule, w: string, word: string, a: string, sep: char, b: string, tail: string)
    requires Keyword(rule, word) && AnyCase(w, word)
    ensures WordLen(rule, HeadingText(w, a, sep, b) + tail) == |w| > 0
  {
    assert HeadingText(w, a, sep, b) + tail == w + (a + [sep] + b + tail);
    KeywordLen(rule, w, word, a + [sep] + b + tail);
    KeywordIsWord(rule, word);
  }

  lemma HeadAtPlaces(rule: Rule, s: string, w: nat, p: nat, h: nat)
    requires rule != Url && WordLen(rule, s) == w > 0 && w <= p < h < |s|
    requires (forall k | w <= k < p :: IsSpace(s[k])) && Separator(s[p])
    requires (forall k | p < k < h :: IsSpace(s[k])) && !IsSpace(s[h])
    ensures HeadLen(rule, s) == Some(h)
  {
    SpacesSkipped(s, w, p);
    SpacesSkipped(s, p + 1, h);
  }

  lemma HeadingPlaces(rule: Rule, w: string, word: string, a: string, sep: char, b: string, tail: string, s: string,
                      p: nat, h: nat)
    requires Heading(rule, w, word, a, sep, b) && tail != "" && !IsSpace(tail[0])
    requires s == HeadingText(w, a, sep, b) + tail && p == |w| + |a| && h == p + 1 + |b|
    ensures rule != Url && WordLen(rule, s) == |w| > 0 && |w| <= p < h < |s|
    ensures (forall k | |w| <= k < p :: IsSpace(s[k])) && Separator(s[p])
    ensures (forall k | p < k < h :: IsSpace(s[k])) && !IsSpace(s[h])
  {
    HeadingWord(rule, w, word, a, sep, b, tail);
    HeadingChars(rule, w, word, a, sep, b, tail, s);
  }

  /** A heading before something other than a space is recognised, whole. */
  lemma HeadingIsHead(rule: Rule, w: string, word: string, a: string, sep: char, b: string, tail: string, s: string)
    requires Heading(rule, w, word, a, sep, b) && tail != "" && !IsSpace(tail[0])
    requires s == HeadingText(w, a, sep, b) + tail
    ensures HeadLen(rule, s) == Some(|HeadingText(w, a, sep, b)|)
  {
    assert |HeadingText(w, a, sep, b)| == |w| + |a| + 1 + |b|;
    HeadingPlaces(rule, w, word, a, sep, b, tail, s, |w| + |a|, |w| + |a| + 1 + |b|);
    HeadAtPlaces(rule, s, |w|, |w| + |a|, |w| + |a| + 1 + |b|);
  }

  lemma BearerStarts(t: string)
    ensures StartsWith(t, "bearer") <==> |t| >= 6 && AnyCase(t[..6], "bearer")
  {
    if |t| >= 6 {
      forall i | 0 <= i < 6 ensures Like(t[i], "bearer"[i]) <==> LowerChar(t[i]) == "bearer"[i] {
      }
    }
  }

  /** The scheme word with nothing behind it but spaces: then it is the value itself. */
  ghost predicate NoToken(rest: string) {
    exists n: nat :: n <= |rest| && Spaces(rest[..n]) && (n < |rest| ==> rest[n] == ',' || rest[n] == ';')
  }

  lemma PlainValueFrom(s: string, h: nat, v: string, rest: string)
    requires h <= |s| && s[h..] == v + rest && WholeValue(Auth, v, rest)
    requires AnyCase(v, "bearer") ==> NoToken(rest)
    ensures h < |s| && !Stop(Auth, s[h]) && ValueFrom(Auth, s, h) == h
  {
    assert s[h] == s[h..][0] == v[0];
    ValueEndIsStop(Auth, s[h]);
    if StartsWith(s[h..], "bearer") && h + 6 < |s| && IsSpace(s[h + 6]) {
      BearerStarts(s[h..]);
      assert s[h + 6] == (v + rest)[6];
      assert |v| <= 6;
      ShortValue(v, rest);
      NoTokenBehind(s, h + 6, rest);
    }
  }

  lemma ShortValue(v: string, rest: string)
    requires WholeValue(Auth, v, rest) && |v| <= 6 && |v + rest| >= 6
    ensures AnyCase((v + rest)[..6], "bearer") ==> |v| == 6 && AnyCase(v, "bearer") && (v + rest)[6..] == rest
  {
    if |v| < 6 {
      assert (v + rest)[..6][|v|] == rest[0];
    } else {
      assert (v + rest)[..6] == v;
    }
  }

  lemma NoTokenBehind(s: string, i: nat, rest: string)
    requires i <= |s| && s[i..] == rest && NoToken(rest)
    ensures var j := SkipSpaces(s, i); j == |s| || Stop(Auth, s[j])
  {
    var n: nat :| n <= |rest| && Spaces(rest[..n]) && (n < |rest| ==> rest[n] == ',' || rest[n] == ';');
    forall k | i <= k < i + n ensures IsSpace(s[k]) {
      assert s[k] == s[i..][k - i] == rest[..n][k - i];
    }
    if n < |rest| {
      assert s[i + n] == rest[n];
    }
    SpacesSkipped(s, i, i + n);
  }

  lemma RunOverValue(rule: Rule, s: string, i: nat, v: string, rest: string)
    requires rule != Url && i <= |s| && s[i..] == v + rest && WholeValue(rule, v, rest)
    ensures RunEnd(rule, s, i) == i + |v| && s[i + |v|..] == rest
  {
    forall k | i <= k < i + |v| ensures !Stop(rule, s[k]) {
      assert s[k] == s[i..][k - i] == v[k - i];
      ValueEndIsStop(rule, s[k]);
    }
    assert s[i + |v|..] == s[i..][|v|..] == rest;
    if rest != "" {
      assert s[i + |v|] == rest[0];
      ValueEndIsStop(rule, rest[0]);
    }
    RunIs(rule, s, i, i + |v|);
  }

  lemma HitGives(rule: Rule, s: string, h: nat, len: nat, head: string, rest: string)
    requires rule != Url && HeadLen(rule, s) == Some(h) && h < len <= |s| && !Stop(rule, s[h])
    requires RunEnd(rule, s, ValueFrom(rule, s, h)) == len && s[..h] == head && s[len..] == rest
    ensures Sub(rule, s) == head + "[REDACTED]" + Sub(rule, rest)
  {
    SubHit(rule, s, Hit(h, len));
  }

  lemma Behind(head: string, tail: string, s: string)
    requires s == head + tail && tail != ""
    ensures s[..|head|] == head && s[|head|..] == tail && s[|head|] == tail[0]
  {
  }

  lemma HitAt(rule: Rule, s: string, head: string, i: nat, v: string, rest: string)
    requires rule != Url && |head| < |s| && s[..|head|] == head && HeadLen(rule, s) == Some(|head|)
    requires !Stop(rule, s[|head|]) && ValueFrom(rule, s, |head|) == i <= |s| && s[i..] == v + rest
    requires WholeValue(rule, v, rest)
    ensures Sub(rule, s) == head + "[REDACTED]" + Sub(rule, rest)
  {
    RunOverValue(rule, s, i, v, rest);
    HitGives(rule, s, |head|, i + |v|, head, rest);
  }

  lemma ValueHit(rule: Rule, s: string, head: string, v: string, rest: string)
    requires rule != Url && |head| <= |s| && s[..|head|] == head && s[|head|..] == v + rest
    requires HeadLen(rule, s) == Some(|head|) && WholeValue(rule, v, rest)
    requires rule == Auth && AnyCase(v, "bearer") ==> NoToken(rest)
    ensures Sub(rule, s) == head + "[REDACTED]" + Sub(rule, rest)
  {
    var h := |head|;
    assert s[h] == s[h..][0] == v[0];
    ValueEndIsStop(rule, v[0]);
    if rule == Auth {
      PlainValueFrom(s, h, v, rest);
    }
    HitAt(rule, s, head, h, v, rest);
  }

  lemma ValueStart(rule: Rule, v: string, rest: string)
    requires WholeValue(rule, v, rest)
    ensures v + rest != "" && !IsSpace((v + rest)[0])
  {
  }

  /** A heading splits off whatever follows it. */
  lemma HeadingSplits(rule: Rule, w: string, word: string, a: string, sep: char, b: string, tail: string, s: string)
    requires Heading(rule, w, word, a, sep, b) && tail != "" && !IsSpace(tail[0]) && s == HeadingText(w, a, sep, b) + tail
    ensures var head := HeadingText(w, a, sep, b);
            |head| <= |s| && s[..|head|] == head && s[|head|..] == tail && HeadLen(rule, s) == Some(|head|)
  {
    HeadingIsHead(rule, w, word, a, sep, b, tail, s);
    Behind(HeadingText(w, a, sep, b), tail, s);
  }

  /** The marker stands for the whole value behind a heading, and the scan goes on behind it. After
      authorization a value that is just the word bearer is one with no token behind it. */
  lemma ValueGone(rule: Rule, w: string, word: string, a: string, sep: char, b: string, v: string, rest: string, s: string)
    requires Heading(rule, w, word, a, sep, b) && WholeValue(rule, v, rest)
    requires s == HeadingText(w, a, sep, b) + (v + rest)
    requires rule == Auth && AnyCase(v, "bearer") ==> NoToken(rest)
    ensures Sub(rule, s) == HeadingText(w, a, sep, b) + "[REDACTED]" + Sub(rule, rest)
  {
    ValueStart(rule, v, rest);
    HeadingSplits(rule, w, word, a, sep, b, v + rest, s);
    ValueHit(rule, s, HeadingText(w, a, sep, b), v, rest);
  }

  lemma TokenFrom(s: string, h: nat, t: string, g: string, v: string, rest: string)
    requires h <= |s| && s[h..] == t + g + (v + rest) && AnyCase(t, "bearer") && Spaces(g) && g != "" && WholeValue(Auth, v, rest)
    ensures h < |s| && !Stop(Auth, s[h]) && ValueFrom(Auth, s, h) == h + 6 + |g| <= |s| && s[h + 6 + |g|..] == v + rest
  {
    var i := h + 6 + |g|;
    assert s[h..][..6] == t;
    BearerStarts(s[h..]);
    assert s[h] == t[0];
    forall k | h + 6 <= k < i ensures IsSpace(s[k]) {
      assert s[k] == s[h..][k - h] == g[k - h - 6];
    }
    assert s[i..] == s[h..][6 + |g|..] == v + rest;
    assert s[i] == v[0];
    ValueEndIsStop(Auth, v[0]);
    SpacesSkipped(s, h + 6, i);
  }

  lemma TokenTail(t: string, g: string, more: string, tail: string)
    requires AnyCase(t, "bearer") && tail == t + g + more
    ensures tail != "" && !IsSpace(tail[0])
  {
    assert tail[0] == t[0] && LowerChar(t[0]) == 'b';
  }

  lemma TokenHit(s: string, head: string, t: string, g: string, v: string, rest: string)
    requires HeadLen(Auth, s) == Some(|head|) && |head| <= |s| && s[..|head|] == head
    requires s[|head|..] == t + g + (v + rest)
    requires AnyCase(t, "bearer") && Spaces(g) && g != "" && WholeValue(Auth, v, rest)
    ensures Sub(Auth, s) == head + "[REDACTED]" + Sub(Auth, rest)
  {
    TokenFrom(s, |head|, t, g, v, rest);
    HitAt(Auth, s, head, |head| + 6 + |g|, v, rest);
  }

  /** A bearer token goes with its scheme word: one marker stands for both. */
  lemma TokenGone(w: string, a: string, sep: char, b: string, t: string, g: string, v: string, rest: string, s: string)
    requires Heading(Auth, w, "authorization", a, sep, b) && AnyCase(t, "bearer") && Spaces(g) && g != ""
    requires WholeValue(Auth, v, rest) && s == HeadingText(w, a, sep, b) + (t + g + (v + rest))
    ensures Sub(Auth, s) == HeadingText(w, a, sep, b) + "[REDACTED]" + Sub(Auth, rest)
  {
    var tail := t + g + (v + rest);
    TokenTail(t, g, v + rest, tail);
    HeadingSplits(Auth, w, "authorization", a, sep, b, tail, s);
    TokenHit(s, HeadingText(w, a, sep, b), t, g, v, rest);
  }

  /** What ends a URL. */
  predicate UrlEnd(c: char) {
    IsSpace(c) || c in "[]()<>\"'"
  }

  lemma UrlEndIsStop(c: char)
    ensures UrlEnd(c) <==> Stop(Url, c)
  {
  }

  lemma SchemeLen(w: string, word: string, tail: string)
    requires (word == "http://" || word == "https://") && AnyCase(w, word)
    ensures WordLen(Url, w + tail) == |word|
  {
    assert Words(Url)[0] == "https://" && Words(Url)[1] == "http://";
    assert forall i | 0 <= i < |word| :: LowerChar(word[i]) == word[i];
    AnyCaseStarts(w, word, tail);
    WordsArePlain(Url);
    WordsAreApart(Url, Words(Url));
    OnlyWord(Url, Words(Url), w + tail, word);
  }

  lemma RunOverUrl(s: string, h: nat, v: string, rest: string)
    requires h <= |s| && s[h..] == v + rest && (forall i | 0 <= i < |v| :: !UrlEnd(v[i])) && (rest != "" ==> UrlEnd(rest[0]))
    ensures RunEnd(Url, s, h) == h + |v| && s[h + |v|..] == rest
  {
    forall k | h <= k < h + |v| ensures !Stop(Url, s[k]) {
      assert s[k] == s[h..][k - h] == v[k - h];
      UrlEndIsStop(s[k]);
    }
    assert s[h + |v|..] == s[h..][|v|..] == rest;
    if rest != "" {
      assert s[h + |v|] == rest[0];
      UrlEndIsStop(rest[0]);
    }
    RunIs(Url, s, h, h + |v|);
  }

  lemma UrlHit(s: string, h: nat, len: nat, rest: string)
    requires 0 < WordLen(Url, s) == h < len <= |s| && !Stop(Url, s[h]) && RunEnd(Url, s, h) == len && s[len..] == rest
    ensures Sub(Url, s) == "[REDACTED_URL]" + Sub(Url, rest)
  {
    SubHit(Url, s, Hit(0, len));
  }

  /** A whole URL goes, scheme included. */
  lemma UrlGone(w: string, word: string, v: string, rest: string, s: string)
    requires (word == "http://" || word == "https://") && AnyCase(w, word) && s == w + (v + rest)
    requires v != "" && (forall i | 0 <= i < |v| :: !UrlEnd(v[i])) && (rest != "" ==> UrlEnd(rest[0]))
    ensures Sub(Url, s) == "[REDACTED_URL]" + Sub(Url, rest)
  {
    var h := |w|;
    assert WordLen(Url, s) == h by {
      SchemeLen(w, word, v + rest);
    }
    Behind(w, v + rest, s);
    UrlEndIsStop(v[0]);
    assert RunEnd(Url, s, h) == h + |v| && s[h + |v|..] == rest by {
      RunOverUrl(s, h, v, rest);
    }
    UrlHit(s, h, h + |v|, rest);
  }

  lemma ShiftedMiss(rule: Rule, p: string, u: string, q: string)
    requires p != "" && q == p[1..] && forall i | 0 <= i < |p| :: Match(rule, (p + u)[i..]) == None
    ensures (p + u)[1..] == q + u && Match(rule, p + u) == None
    ensures forall i | 0 <= i < |q| :: Match(rule, (q + u)[i..]) == None
  {
    var s := p + u;
    assert s[0..] == s && s[1..] == q + u;
    forall i | 0 <= i < |q| ensures Match(rule, (q + u)[i..]) == None {
      assert (q + u)[i..] == s[i + 1..];
    }
  }

  /** Text in which no match begins stays as it is. */
  lemma {:induction false} PrefixKept(rule: Rule, p: string, u: string)
    requires forall i | 0 <= i < |p| :: Match(rule, (p + u)[i..]) == None
    ensures Sub(rule, p + u) == p + Sub(rule, u)
    decreases |p|
  {
    if p == "" {
      assert p + u == u;
    } else {
      ShiftedMiss(rule, p, u, p[1..]);
      SubMiss(rule, p + u);
      PrefixKept(rule, p[1..], u);
      Reassociate([p[0]], p[1..], Sub(rule, u));
      assert [p[0]] + p[1..] == p;
    }
  }

  // ---- A line with a bearer token ----

  const AUTH_HEAD := "Authorization: "

  lemma NoWordInHead(rule: Rule, i: nat, u: string, w: string)
    requires i < |AUTH_HEAD| && rule != Auth && |u| >= 3 && u[0] == AUTH_HEAD[i] && Begins(w) && w[0] != '['
    requires u[1] == (if i + 1 < |AUTH_HEAD| then AUTH_HEAD[i + 1] else '[')
    requires w in Words(rule)
    ensures !StartsWith(u, w)
  {
    OtherBegins(rule, w);
  }

  /** The words of the later expressions do not begin as the heading does anywhere. */
  lemma OtherBegins(rule: Rule, w: string)
    requires rule != Auth && w in Words(rule)
    ensures |w| >= 3
    ensures (w[0] == 'a' && (w[1] == 'c' || w[1] == 'p')) || (w[0] == 'r' && w[1] == 'e') || (w[0] == 'c' && w[1] == 'l')
            || (w[0] == 'p' && w[1] == 'a') || (w[0] == 't' && w[1] == 'o') || (w[0] == 'k' && w[1] == 'e')
            || (w[0] == 'h' && w[1] == 't')
  {
  }

  lemma QuietHead(rule: Rule, i: nat, u: string)
    requires i < |AUTH_HEAD| && rule != Auth && u == (AUTH_HEAD + REDACTED)[i..]
    ensures WordLen(rule, u) == 0
  {
    FirstWordIs(Words(rule), u);
    WordsBegin(rule);
    forall w | w in Words(rule) ensures !StartsWith(u, w) {
      NoWordInHead(rule, i, u, w);
    }
  }

  /** Neither of the later expressions finds anything in the redacted heading. */
  lemma RedactedHeadStays(rule: Rule)
    requires rule != Auth
    ensures Sub(rule, AUTH_HEAD + REDACTED) == AUTH_HEAD + REDACTED
  {
    var s := AUTH_HEAD + REDACTED;
    forall i | 0 <= i < |AUTH_HEAD| ensures WordLen(rule, s[i..]) == 0 {
      QuietHead(rule, i, s[i..]);
    }
    DeadRun(rule, s, |AUTH_HEAD|);
    assert s[|AUTH_HEAD|..] == REDACTED && s[..|AUTH_HEAD|] == AUTH_HEAD;
    MarkerKept(rule, REDACTED);
    assert REDACTED[10..] == "" && REDACTED + "" == REDACTED;
  }

  lemma OnlyAuthActs(text: string, a: string, limit: int)
    requires FirstLine(text) == text && Sub(Auth, text) == a && Sub(Secret, a) == a && Sub(Url, a) == a
    ensures SanitizeSensitiveText(text, limit) == Truncated(a, limit)
  {
  }

  lemma TokenLineIsOne(token: string, text: string)
    requires text == "Authorization: Bearer " + token && '\n' !in token
    ensures FirstLine(text) == text
  {
    OneLineStays(text);
  }

  /** A line with a bearer token, whatever the token: nothing of it is left. */
  lemma TokenLine(text: string, token: string, redacted: string, limit: int)
    requires token != "" && forall i | 0 <= i < |token| :: !IsSpace(token[i]) && token[i] != ',' && token[i] != ';'
    requires text == "Authorization: Bearer " + token && redacted == "Authorization: [REDACTED]"
    ensures SanitizeSensitiveText(text, limit) == Truncated(redacted, limit)
  {
    assert redacted == AUTH_HEAD + REDACTED;
    assert FirstLine(text) == text by {
      TokenLineIsOne(token, text);
    }
    assert Sub(Auth, text) == redacted by {
      TokenLineAuth(token, text);
    }
    assert Sub(Secret, redacted) == redacted && Sub(Url, redacted) == redacted by {
      RedactedHeadStays(Secret);
      RedactedHeadStays(Url);
    }
    OnlyAuthActs(text, redacted, limit);
  }

  lemma TokenLineAuth(token: string, text: string)
    requires WholeValue(Auth, token, "") && text == "Authorization: Bearer " + token
    ensures Sub(Auth, text) == AUTH_HEAD + REDACTED
  {
    var w := "Authorization";
    assert AnyCase(w, "authorization");
    assert AnyCase("Bearer", "bearer");
    assert HeadingText(w, "", ':', " ") == AUTH_HEAD;
    assert text == AUTH_HEAD + ("Bearer" + " " + (token + ""));
    TokenGone(w, "", ':', " ", "Bearer", " ", token, "", text);
    assert AUTH_HEAD + REDACTED + "" == AUTH_HEAD + REDACTED;
  }

  // ---- Nothing more is taken away ----

  ghost predicate NothingIn(rule: Rule, s: string) {
    forall i, h: nat | 0 <= i <= |s| :: !HeadAt(rule, s[i..], h)
  }

  lemma NothingAtStart(rule: Rule, s: string)
    requires s != "" && NothingIn(rule, s)
    ensures Sub(rule, s) == [s[0]] + Sub(rule, s[1..])
  {
    assert s[0..] == s;
    MatchIff(rule, s);
    SubMiss(rule, s);
  }

  lemma NothingBehind(rule: Rule, s: string)
    requires s != "" && NothingIn(rule, s)
    ensures NothingIn(rule, s[1..])
  {
    forall i, h: nat | 0 <= i <= |s[1..]| ensures !HeadAt(rule, s[1..][i..], h) {
      assert s[1..][i..] == s[i + 1..];
    }
  }

  lemma {:induction false} NothingReplaced(rule: Rule, s: string)
    requires NothingIn(rule, s)
    ensures Sub(rule, s) == s
    decreases |s|
  {
    if s != "" {
      NothingAtStart(rule, s);
      NothingBehind(rule, s);
      NothingReplaced(rule, s[1..]);
    }
  }

  lemma {:induction false} OneLineStays(s: string)
    requires '\n' !in s
    ensures FirstLine(s) == s
  {
    if s != "" {
      assert s[0] in s && '\n' !in s[1..];
      OneLineStays(s[1..]);
    }
  }

  /** A line that holds nothing credential-shaped and no URL is only cut to the limit. */
  lemma HarmlessTextIsKept(text: string, limit: int)
    requires '\n' !in text && forall rule :: NothingIn(rule, text)
    ensures SanitizeSensitiveText(text, limit) == Truncated(text, limit)
  {
    OneLineStays(text);
    NothingReplaced(Auth, text);
    NothingReplaced(Secret, text);
    NothingReplaced(Url, text);
  }
}
