/** The check that no credential field or session address reaches the publisher dashboard. */
module LeakCheck {
  import opened Wrappers
  import opened Text

  datatype Json =
    | Null | Boolean(flag: bool) | Number(number: int)
    | Str(text: string)
    | List(items: seq<Json>)
    | Record(fields: seq<(string, Json)>)

  /** String.prototype.toLowerCase, as far as the result can be an ASCII letter. */
  function LowerCase(s: string): string {
    if s == "" then ""
    else
      (if s[0] == '\U{212A}' then "k" else if s[0] == '\U{130}' then ['i', '\U{307}'] else [LowerChar(s[0])])
      + LowerCase(s[1..])
  }

  predicate Includes(s: string, word: string) {
    exists i | 0 <= i <= |s| :: word <= s[i..]
  }

  function ForbiddenKeys(): seq<string> {
    [ "access_token", "refresh_token", "encrypted_access_token", "encrypted_refresh_token", "session_uri",
      "authorization", "client_secret", "oauth_code", "pkce_verifier", "code_verifier"]
  }

  predicate ForbiddenKey(key: string) {
    exists k <- ForbiddenKeys() :: Includes(LowerCase(key), k)
  }

  predicate SensitiveText(s: string) {
    var lower := LowerCase(s);
    Includes(lower, "bearer ") || Includes(lower, "client_secret") || Includes(lower, "upload.youtube.com")
  }

  predicate Sensitive(j: Json) {
    j.Str? && SensitiveText(j.text)
  }

  /** A child of a value: how the path to it goes on, whether its key alone is forbidden, and itself. */
  datatype Kid = Kid(name: string, bad: bool, value: Json)

  function Kids(j: Json): (kids: seq<Kid>)
    ensures forall k | 0 <= k < |kids| :: kids[k].value < j
  {
    match j
    case List(items) =>
      seq(|items|, i requires 0 <= i < |items| => Kid("[" + NatText(i) + "]", false, items[i]))
    case Record(fields) =>
      seq(|fields|, i requires 0 <= i < |fields| =>
        assert fields[i] < j;
        Kid("." + fields[i].0, ForbiddenKey(fields[i].0), fields[i].1))
    case _ => []
  }

  datatype Leak = ForbiddenField(path: string) | SensitiveContent(path: string, content: string)

  /** The error thrown, if any: children in order, a key before the value under it. */
  function AssertNoForbiddenFields(j: Json, path: string): (r: Option<Leak>)
    decreases j, 1, 0
  {
    if Sensitive(j) then Some(SensitiveContent(path, j.text)) else CheckKids(j, path, 0)
  }

  function CheckKids(j: Json, path: string, k: nat): (r: Option<Leak>)
    requires k <= |Kids(j)|
    decreases j, 0, |Kids(j)| - k
  {
    if k == |Kids(j)| then None
    else
      var kid := Kids(j)[k];
      if kid.bad then Some(ForbiddenField(path + kid.name))
      else
        match AssertNoForbiddenFields(kid.value, path + kid.name)
        case Some(leak) => Some(leak)
        case None => CheckKids(j, path, k + 1)
  }

  // ---- Places in the tree ----

  /** Whether something leaks at the place that the child numbers lead to: by the key on the last
      step, or by the text found there. */
  predicate LeaksAt(j: Json, place: seq<nat>)
    decreases |place|
  {
    if place == [] then Sensitive(j)
    else
      && place[0] < |Kids(j)|
      && ((|place| == 1 && Kids(j)[place[0]].bad) || LeaksAt(Kids(j)[place[0]].value, place[1..]))
  }

  function LeakOf(j: Json, path: string, place: seq<nat>): (l: Leak)
    requires LeaksAt(j, place)
    decreases |place|
  {
    if place == [] then SensitiveContent(path, j.text)
    else
      var kid := Kids(j)[place[0]];
      if |place| == 1 && kid.bad then ForbiddenField(path + kid.name)
      else LeakOf(kid.value, path + kid.name, place[1..])
  }

  /** Document order: a value before what is inside it. */
  predicate Before(a: seq<nat>, b: seq<nat>) {
    b != [] && (a == [] || a[0] < b[0] || (a[0] == b[0] && Before(a[1..], b[1..])))
  }

  ghost predicate FirstLeak(j: Json, path: string, place: seq<nat>, leak: Leak) {
    && LeaksAt(j, place) && leak == LeakOf(j, path, place)
    && forall p | Before(p, place) :: !LeaksAt(j, p)
  }

  ghost predicate QuietUpTo(j: Json, k: nat) {
    forall p: seq<nat> | p != [] && p[0] < k :: !LeaksAt(j, p)
  }

  lemma KidQuiet(j: Json, k: nat)
    requires k < |Kids(j)| && !Kids(j)[k].bad && QuietUpTo(j, k)
    requires forall p: seq<nat> :: !LeaksAt(Kids(j)[k].value, p)
    ensures QuietUpTo(j, k + 1)
  {
    forall p: seq<nat> | p != [] && p[0] < k + 1 ensures !LeaksAt(j, p) {
      if p[0] == k {
        assert !LeaksAt(Kids(j)[k].value, p[1..]);
      }
    }
  }

  lemma KidLeaks(j: Json, path: string, k: nat, place: seq<nat>, leak: Leak)
    requires k < |Kids(j)| && !Kids(j)[k].bad && QuietUpTo(j, k) && !Sensitive(j)
    requires FirstLeak(Kids(j)[k].value, path + Kids(j)[k].name, place, leak)
    ensures FirstLeak(j, path, [k] + place, leak)
  {
    var here := [k] + place;
    assert here[1..] == place;
    forall p | Before(p, here) ensures !LeaksAt(j, p) {
      if p != [] && p[0] == k {
        assert Before(p[1..], place);
      }
    }
  }

  lemma BeforeOne(p: seq<nat>, k: nat)
    requires Before(p, [k])
    ensures p == [] || p[0] < k
  {
    assert [k][1..] == [];
    assert forall a: seq<nat> :: !Before(a, [k][1..]);
  }

  lemma KeyLeaks(j: Json, path: string, k: nat)
    requires k < |Kids(j)| && Kids(j)[k].bad && QuietUpTo(j, k) && !Sensitive(j)
    ensures FirstLeak(j, path, [k], ForbiddenField(path + Kids(j)[k].name))
  {
    forall p | Before(p, [k]) ensures !LeaksAt(j, p) {
      BeforeOne(p, k);
    }
  }

  lemma {:induction false} CheckKidsExact(j: Json, path: string, k: nat) returns (place: seq<nat>)
    requires k <= |Kids(j)| && QuietUpTo(j, k) && !Sensitive(j)
    ensures match CheckKids(j, path, k)
            case None => QuietUpTo(j, |Kids(j)|)
            case Some(leak) => FirstLeak(j, path, place, leak)
    decreases j, 0, |Kids(j)| - k
  {
    place := [];
    if k < |Kids(j)| {
      var kid := Kids(j)[k];
      if kid.bad {
        KeyLeaks(j, path, k);
        place := [k];
      } else {
        var inner := CheckExact(kid.value, path + kid.name);
        if AssertNoForbiddenFields(kid.value, path + kid.name) == None {
          KidQuiet(j, k);
          place := CheckKidsExact(j, path, k + 1);
        } else {
          KidLeaks(j, path, k, inner, AssertNoForbiddenFields(kid.value, path + kid.name).value);
          place := [k] + inner;
        }
      }
    }
  }

  /** The check passes exactly when nothing leaks anywhere in the value; otherwise it reports the
      first leak in document order, under its path. */
  lemma {:induction false} CheckExact(j: Json, path: string) returns (place: seq<nat>)
    ensures match AssertNoForbiddenFields(j, path)
            case None => forall p: seq<nat> :: !LeaksAt(j, p)
            case Some(leak) => FirstLeak(j, path, place, leak)
    decreases j, 1, 0
  {
    if Sensitive(j) {
      place := [];
    } else {
      assert QuietUpTo(j, 0);
      place := CheckKidsExact(j, path, 0);
      if AssertNoForbiddenFields(j, path) == None {
        forall p: seq<nat> ensures !LeaksAt(j, p) {
          if p != [] && p[0] >= |Kids(j)| {
            assert !LeaksAt(j, p);
          }
        }
      }
    }
  }

  lemma PassesIff(j: Json, path: string)
    ensures AssertNoForbiddenFields(j, path) == None <==> forall place: seq<nat> :: !LeaksAt(j, place)
  {
    var place := CheckExact(j, path);
    if AssertNoForbiddenFields(j, path).Some? {
      assert FirstLeak(j, path, place, AssertNoForbiddenFields(j, path).value);
      assert exists p: seq<nat> :: LeaksAt(j, p);
    }
  }

  // ---- What a leak is, without the lower-casing and the numbering of children ----

  /** One letter of a word, in either case. Lower-casing also turns the Kelvin sign into k, and the
      dotted capital I into i and a combining dot, which only the last letter of a word can take. */
  predicate SpelledLetter(c: char, letter: char, last: bool) {
    || c == letter
    || ('a' <= letter <= 'z' && c == letter - 'a' + 'A')
    || (letter == 'k' && c == '\U{212A}')
    || (letter == 'i' && last && c == '\U{130}')
  }

  predicate SpelledHere(s: string, i: nat, word: string) {
    && i + |word| <= |s|
    && forall k | 0 <= k < |word| :: SpelledLetter(s[i + k], word[k], k == |word| - 1)
  }

  /** The word occurs in the text, in any mixture of cases. */
  predicate Contains(s: string, word: string) {
    exists i: nat :: i <= |s| && SpelledHere(s, i, word)
  }

  predicate Plain(word: string) {
    forall k | 0 <= k < |word| :: word[k] as int < 128 && !('A' <= word[k] <= 'Z')
  }

  lemma LowerCaseStep(s: string)
    requires s != "" && s[0] != '\U{130}'
    ensures exists c: char :: LowerCase(s) == [c] + LowerCase(s[1..])
              && forall letter: char | letter as int < 128 && !('A' <= letter <= 'Z') ::
                   c == letter <==> SpelledLetter(s[0], letter, false)
  {
    var c := if s[0] == '\U{212A}' then 'k' else LowerChar(s[0]);
    assert LowerCase(s) == [c] + LowerCase(s[1..]);
  }

  lemma SpelledTail(s: string, word: string)
    requires s != "" && word != "" && |word| > 1
    ensures SpelledHere(s, 0, word) <==> SpelledLetter(s[0], word[0], false) && SpelledHere(s[1..], 0, word[1..])
  {
    if SpelledHere(s, 0, word) {
      forall k | 0 <= k < |word[1..]| ensures SpelledLetter(s[1..][k], word[1..][k], k == |word[1..]| - 1) {
        assert SpelledLetter(s[k + 1], word[k + 1], k + 1 == |word| - 1);
      }
    }
    if SpelledLetter(s[0], word[0], false) && SpelledHere(s[1..], 0, word[1..]) {
      forall k | 0 <= k < |word| ensures SpelledLetter(s[k], word[k], k == |word| - 1) {
        if k > 0 {
          assert SpelledLetter(s[1..][k - 1], word[1..][k - 1], k - 1 == |word[1..]| - 1);
        }
      }
    }
  }

  lemma SpelledOne(s: string, word: string)
    requires |word| == 1
    ensures SpelledHere(s, 0, word) <==> s != "" && SpelledLetter(s[0], word[0], true)
  {
  }

  /** A word begins the lower-cased text exactly when it is spelled at the start. */
  lemma {:induction false} PrefixIff(s: string, word: string)
    requires Plain(word)
    ensures word <= LowerCase(s) <==> SpelledHere(s, 0, word)
    decreases |word|
  {
    if word != "" && s != "" {
      var rest := word[1..];
      if s[0] == '\U{130}' {
        assert LowerCase(s) == ['i', '\U{307}'] + LowerCase(s[1..]);
        if |word| > 1 {
          assert LowerCase(s)[1] == '\U{307}' != word[1];
          SpelledTail(s, word);
        } else {
          SpelledOne(s, word);
        }
      } else {
        LowerCaseStep(s);
        var c: char :| LowerCase(s) == [c] + LowerCase(s[1..])
                       && forall letter: char | letter as int < 128 && !('A' <= letter <= 'Z') ::
                            c == letter <==> SpelledLetter(s[0], letter, false);
        PrefixStep(c, LowerCase(s[1..]), word);
        PrefixIff(s[1..], rest);
        if |word| > 1 {
          SpelledTail(s, word);
        } else {
          SpelledOne(s, word);
        }
      }
    }
  }

  lemma PrefixStep(c: char, t: string, word: string)
    requires word != ""
    ensures word <= [c] + t <==> word[0] == c && word[1..] <= t
  {
    if word <= [c] + t {
      assert forall k | 0 <= k < |word| :: word[k] == ([c] + t)[k];
      assert word[1..] == t[..|word| - 1];
    }
    if word[0] == c && word[1..] <= t {
      assert word == [c] + word[1..];
    }
  }

  lemma ContainsStep(s: string, word: string)
    requires s != ""
    ensures Contains(s, word) <==> SpelledHere(s, 0, word) || Contains(s[1..], word)
  {
    if i: nat :| i <= |s| && SpelledHere(s, i, word) {
      if i > 0 {
        ShiftSpelled(s, i, word);
      }
    }
    if i: nat :| i <= |s[1..]| && SpelledHere(s[1..], i, word) {
      ShiftSpelled(s, i + 1, word);
    }
  }

  lemma ShiftSpelled(s: string, i: nat, word: string)
    requires s != "" && 0 < i
    ensures SpelledHere(s, i, word) <==> SpelledHere(s[1..], i - 1, word)
  {
    if SpelledHere(s, i, word) {
      forall k | 0 <= k < |word| ensures SpelledLetter(s[1..][i - 1 + k], word[k], k == |word| - 1) {
        assert SpelledLetter(s[i + k], word[k], k == |word| - 1);
      }
    }
    if SpelledHere(s[1..], i - 1, word) {
      forall k | 0 <= k < |word| ensures SpelledLetter(s[i + k], word[k], k == |word| - 1) {
        assert SpelledLetter(s[1..][i - 1 + k], word[k], k == |word| - 1);
      }
    }
  }

  lemma IncludesTail(c: char, t: string, word: string)
    ensures Includes([c] + t, word) <==> word <= [c] + t || Includes(t, word)
  {
    var u := [c] + t;
    assert u[0..] == u;
    if i :| 0 <= i <= |u| && word <= u[i..] {
      if i > 0 {
        assert u[i..] == t[i - 1..];
      }
    }
    if i :| 0 <= i <= |t| && word <= t[i..] {
      assert u[i + 1..] == t[i..];
    }
  }

  /** Looking for a word in the lower-cased text finds it exactly where it is spelled. */
  lemma {:induction false} IncludesIff(s: string, word: string)
    requires Plain(word) && word != ""
    ensures Includes(LowerCase(s), word) <==> Contains(s, word)
    decreases |s|
  {
    if s != "" {
      IncludesIff(s[1..], word);
      ContainsStep(s, word);
      PrefixIff(s, word);
      var t := LowerCase(s[1..]);
      if s[0] == '\U{130}' {
        assert LowerCase(s) == ['i'] + (['\U{307}'] + t);
        IncludesTail('i', ['\U{307}'] + t, word);
        IncludesTail('\U{307}', t, word);
        assert !(word <= ['\U{307}'] + t) by {
          assert word[0] as int < 128;
        }
      } else {
        LowerCaseStep(s);
        var c: char :| LowerCase(s) == [c] + LowerCase(s[1..])
                       && forall letter: char | letter as int < 128 && !('A' <= letter <= 'Z') ::
                            c == letter <==> SpelledLetter(s[0], letter, false);
        IncludesTail(c, t, word);
      }
    }
  }

  /** The parts of a key that must not be shown. */
  predicate ForbiddenWord(word: string) {
    || word == "access_token" || word == "refresh_token" || word == "encrypted_access_token"
    || word == "encrypted_refresh_token" || word == "session_uri" || word == "authorization"
    || word == "client_secret" || word == "oauth_code" || word == "pkce_verifier" || word == "code_verifier"
  }

  predicate SensitiveWord(word: string) {
    word == "bearer " || word == "client_secret" || word == "upload.youtube.com"
  }

  lemma WordsListed(word: string)
    ensures word in ForbiddenKeys() <==> ForbiddenWord(word)
  {
    var ws := ForbiddenKeys();
    assert ws[0] == "access_token" && ws[1] == "refresh_token" && ws[2] == "encrypted_access_token";
    assert ws[3] == "encrypted_refresh_token" && ws[4] == "session_uri" && ws[5] == "authorization";
    assert ws[6] == "client_secret" && ws[7] == "oauth_code" && ws[8] == "pkce_verifier" && ws[9] == "code_verifier";
  }

  lemma TokenWordIsPlain(word: string)
    requires word == "access_token" || word == "refresh_token" || word == "encrypted_access_token"
             || word == "encrypted_refresh_token" || word == "session_uri"
    ensures Plain(word) && word != ""
  {
  }

  lemma ForbiddenIsPlain(word: string)
    requires ForbiddenWord(word)
    ensures Plain(word) && word != ""
  {
    if (word[0] == 'a' && word[1] == 'c') || word[0] == 'r' || word[0] == 'e' || word[0] == 's' {
      TokenWordIsPlain(word);
    }
  }

  lemma ForbiddenKeyIff(key: string)
    ensures ForbiddenKey(key) <==> exists word :: ForbiddenWord(word) && Contains(key, word)
  {
    if ForbiddenKey(key) {
      var word :| word in ForbiddenKeys() && Includes(LowerCase(key), word);
      WordsListed(word);
      ForbiddenIsPlain(word);
      IncludesIff(key, word);
    }
    if word :| ForbiddenWord(word) && Contains(key, word) {
      WordsListed(word);
      ForbiddenIsPlain(word);
      IncludesIff(key, word);
    }
  }

  lemma SensitiveTextIff(s: string)
    ensures SensitiveText(s) <==> exists word :: SensitiveWord(word) && Contains(s, word)
  {
    IncludesIff(s, "bearer ");
    IncludesIff(s, "client_secret");
    IncludesIff(s, "upload.youtube.com");
    assert SensitiveWord("bearer ") && SensitiveWord("client_secret") && SensitiveWord("upload.youtube.com");
  }

  /** The value itself, or one somewhere inside its lists and records. */
  predicate Within(inner: Json, j: Json)
    decreases j
  {
    || inner == j
    || (j.List? && exists i | 0 <= i < |j.items| :: Within(inner, j.items[i]))
    || (j.Record? && exists i | 0 <= i < |j.fields| :: (assert j.fields[i] < j; Within(inner, j.fields[i].1)))
  }

  /** What one value shows by itself: a text, or the keys of a record. */
  ghost predicate Discreet(j: Json) {
    && (j.Str? ==> forall word | SensitiveWord(word) :: !Contains(j.text, word))
    && (j.Record? ==> forall i, word | 0 <= i < |j.fields| && ForbiddenWord(word) :: !Contains(j.fields[i].0, word))
  }

  lemma DiscreetIff(j: Json)
    ensures Discreet(j) <==> !Sensitive(j) && forall k | 0 <= k < |Kids(j)| :: !Kids(j)[k].bad
  {
    if j.Str? {
      SensitiveTextIff(j.text);
    }
    if j.Record? {
      forall i | 0 <= i < |j.fields|
        ensures Kids(j)[i].bad <==> exists word :: ForbiddenWord(word) && Contains(j.fields[i].0, word)
      {
        ForbiddenKeyIff(j.fields[i].0);
      }
    }
  }

  lemma WithinKids(inner: Json, j: Json)
    ensures Within(inner, j) <==> inner == j || exists k | 0 <= k < |Kids(j)| :: Within(inner, Kids(j)[k].value)
  {
    if j.List? {
      forall i | 0 <= i < |j.items| ensures Kids(j)[i].value == j.items[i] {
      }
    } else if j.Record? {
      forall i | 0 <= i < |j.fields| ensures Kids(j)[i].value == j.fields[i].1 {
      }
    }
  }

  lemma {:induction false} KidsPass(j: Json, path: string, k: nat)
    requires k <= |Kids(j)|
    ensures CheckKids(j, path, k) == None <==>
            forall i | k <= i < |Kids(j)| ::
              !Kids(j)[i].bad && AssertNoForbiddenFields(Kids(j)[i].value, path + Kids(j)[i].name) == None
    decreases |Kids(j)| - k
  {
    if k < |Kids(j)| {
      KidsPass(j, path, k + 1);
    }
  }

  /** The check passes exactly when every value anywhere inside, at any depth of lists and records,
      shows no sensitive text and no forbidden key. */
  lemma {:induction false} PassesIffDiscreet(j: Json, path: string)
    ensures AssertNoForbiddenFields(j, path) == None <==> forall inner | Within(inner, j) :: Discreet(inner)
    decreases j
  {
    KidsPass(j, path, 0);
    DiscreetIff(j);
    forall k | 0 <= k < |Kids(j)|
      ensures AssertNoForbiddenFields(Kids(j)[k].value, path + Kids(j)[k].name) == None <==>
              forall inner | Within(inner, Kids(j)[k].value) :: Discreet(inner)
    {
      PassesIffDiscreet(Kids(j)[k].value, path + Kids(j)[k].name);
    }
    forall inner ensures Within(inner, j) <==> inner == j || exists k | 0 <= k < |Kids(j)| :: Within(inner, Kids(j)[k].value) {
      WithinKids(inner, j);
    }
  }

  /** How a place is written: list positions in brackets, keys after a dot. */
  function PathTo(j: Json, place: seq<nat>): string
    decreases |place|
  {
    if place == [] then ""
    else if j.List? && place[0] < |j.items| then "[" + NatText(place[0]) + "]" + PathTo(j.items[place[0]], place[1..])
    else if j.Record? && place[0] < |j.fields| then "." + j.fields[place[0]].0 + PathTo(j.fields[place[0]].1, place[1..])
    else ""
  }

  lemma PathGoesOn(a: string, b: string, c: string)
    ensures a + (b + c) == a + b + c
  {
  }

  /** A reported leak names the path of its place and, for a text, the text found there. */
  lemma {:induction false} LeakIsAtPath(j: Json, path: string, place: seq<nat>)
    requires LeaksAt(j, place)
    ensures LeakOf(j, path, place).path == path + PathTo(j, place)
    decreases |place|
  {
    if place == [] {
      assert path + "" == path;
    } else {
      var kid := Kids(j)[place[0]];
      assert PathTo(j, place) == kid.name + PathTo(kid.value, place[1..]);
      PathGoesOn(path, kid.name, PathTo(kid.value, place[1..]));
      if |place| == 1 && kid.bad {
        assert place[1..] == [] && PathTo(kid.value, []) == "" && kid.name + "" == kid.name;
      } else {
        LeakIsAtPath(kid.value, path + kid.name, place[1..]);
      }
    }
  }
}
