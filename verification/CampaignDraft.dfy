/**
 The campaign draft form: reading a release time, checking a list of items, moving an item.
 Local time is at a fixed offset from UTC, in whole minutes.
 */
module CampaignDraft {
  import opened Wrappers
  import opened Text
  import opened CivilTime

  // ---- Reading a local release time ----

  /** What String.prototype.trim removes. */
  predicate TrimSpace(c: char) {
    var n := c as int;
    || 9 <= n <= 13 || n == 32 || n == 0xA0 || n == 0x1680 || 0x2000 <= n <= 0x200A
    || n == 0x2028 || n == 0x2029 || n == 0x202F || n == 0x205F || n == 0x3000 || n == 0xFEFF
  }

  /** WhiteSpace and LineTerminator of ECMA-262, sections 12.2 and 12.3. */
  predicate EcmaSpace(c: char) {
    c in "\t\U{000B}\U{000C}\U{FEFF}" || SpaceSeparator(c) || c in "\n\r\U{2028}\U{2029}"
  }

  lemma TrimSpaceIff(c: char)
    ensures TrimSpace(c) <==> EcmaSpace(c)
  {
  }

  predicate Blank(s: string) { forall i | 0 <= i < |s| :: TrimSpace(s[i]) }

  /** \d{4}-\d{2}-\d{2}T\d{2}:\d{2} */
  predicate Shaped(s: string) {
    && |s| == 16
    && AllDigits(s[..4]) && s[4] == '-' && AllDigits(s[5..7]) && s[7] == '-' && AllDigits(s[8..10])
    && s[10] == 'T' && AllDigits(s[11..13]) && s[13] == ':' && AllDigits(s[14..])
  }

  function Written(s: string): (f: Fields)
    requires Shaped(s)
  {
    Fields(Value(s[..4]), Value(s[5..7]), Value(s[8..10]), Value(s[11..13]), Value(s[14..]))
  }

  /** The text of a local date and time, as an input control gives it. */
  function LocalText(f: Fields): (s: string)
    requires Real(f) && 0 <= f.year <= 9999
  {
    Padded(f.year, 4) + DateTimeText(f)
  }

  datatype Reading = Empty | Bad | Instant(utc: int)

  /** What remains of a release input: its instant, if it is accepted. parsed is what the engine's
      Date constructor makes of the written fields, in minutes, or None for NaN. */
  function Checked(f: Fields, parsed: Option<int>, offset: int): (r: Reading) {
    match parsed
    case None => Bad
    case Some(utc) => if FieldsOf(utc + offset) == f then Instant(utc) else Bad
  }

  function ReadRelease(s: string, parse: Fields -> Option<int>, offset: int): (r: Reading) {
    if Blank(s) then Empty
    else if !Shaped(s) then Bad
    else Checked(Written(s), parse(Written(s)), offset)
  }

  /** ECMA-262 fixes the result for the dates and times of the calendar, and for nothing else:
      an engine may roll February 30 over, as many do, or refuse it. */
  ghost predicate Conforming(parse: Fields -> Option<int>, offset: int) {
    && -1440 < offset < 1440
    && forall f | Real(f) && 0 <= f.year <= 9999 :: parse(f) == Some(Minutes(f) - offset)
  }

  lemma {:induction false} PaddedOfValue(s: string)
    requires AllDigits(s)
    ensures Padded(Value(s), |s|) == s && Value(s) < Pow10(|s|)
  {
    if s != "" {
      var init := s[..|s| - 1];
      PaddedOfValue(init);
      assert Value(s) / 10 == Value(init) && Value(s) % 10 == DigitValue(s[|s| - 1]);
      assert s == init + [s[|s| - 1]];
    }
  }

  lemma TwoValue(n: int)
    requires 0 <= n < 100
    ensures Value(Two(n)) == n
  {
    var s := Two(n);
    assert s[..1] == [Digit(n / 10)] && s[..1][..0] == "";
    assert Value(s[..1]) == n / 10;
  }

  lemma TwoOfValue(s: string)
    requires |s| == 2 && AllDigits(s)
    ensures Value(s) < 100 && Two(Value(s)) == s
  {
    assert s[..1][..0] == "" && s[..1][0] == s[0];
    assert Value(s[..1]) == DigitValue(s[0]);
    assert s == [s[0], s[1]];
  }

  lemma FourDigits()
    ensures Pow10(4) == 10_000 && Pow10(2) == 100
  {
    assert Pow10(1) == 10 * Pow10(0) && Pow10(2) == 10 * Pow10(1) && Pow10(3) == 10 * Pow10(2);
  }

  function Assembled(a: string, b: string, c: string, d: string, e: string): string {
    a + ("-" + b + "-" + c + "T" + d + ":" + e)
  }

  lemma AssembledParts(a: string, b: string, c: string, d: string, e: string)
    requires |a| == 4 && |b| == |c| == |d| == |e| == 2
    requires AllDigits(a) && AllDigits(b) && AllDigits(c) && AllDigits(d) && AllDigits(e)
    ensures var s := Assembled(a, b, c, d, e);
            Shaped(s) && s[..4] == a && s[5..7] == b && s[8..10] == c && s[11..13] == d && s[14..] == e
  {
    var s := Assembled(a, b, c, d, e);
    assert |s| == 16 && s[..4] == a && s[5..7] == b;
    assert s[8..10] == c && s[11..13] == d && s[14..] == e;
  }

  lemma ShapedIsAssembled(s: string)
    requires Shaped(s)
    ensures s == Assembled(s[..4], s[5..7], s[8..10], s[11..13], s[14..])
  {
  }

  lemma LocalTextParts(f: Fields)
    requires Real(f) && 0 <= f.year <= 9999
    ensures LocalText(f) ==
            Assembled(Padded(f.year, 4), Two(f.month), Two(f.day), Two(f.hour), Two(f.minute))
  {
  }

  lemma AssembledReads(s: string, f: Fields, a: string, b: string, c: string, d: string, e: string)
    requires |a| == 4 && |b| == |c| == |d| == |e| == 2
    requires AllDigits(a) && AllDigits(b) && AllDigits(c) && AllDigits(d) && AllDigits(e)
    requires s == Assembled(a, b, c, d, e) && f == Fields(Value(a), Value(b), Value(c), Value(d), Value(e))
    ensures Shaped(s) && !Blank(s) && Written(s) == f
  {
    AssembledParts(a, b, c, d, e);
    assert s[4] == '-' && !TrimSpace(s[4]);
  }

  /** The text of real fields has the shape, is not blank, and reads back as the fields. */
  lemma LocalTextReads(f: Fields)
    requires Real(f) && 0 <= f.year <= 9999
    ensures var s := LocalText(f); Shaped(s) && !Blank(s) && Written(s) == f
  {
    FourDigits();
    PaddedValue(f.year, 4);
    TwoValue(f.month);
    TwoValue(f.day);
    TwoValue(f.hour);
    TwoValue(f.minute);
    LocalTextParts(f);
    AssembledReads(LocalText(f), f, Padded(f.year, 4), Two(f.month), Two(f.day), Two(f.hour), Two(f.minute));
  }

  lemma WrittenPrints(s: string)
    requires Shaped(s) && Real(Written(s))
    ensures 0 <= Written(s).year <= 9999 && LocalText(Written(s)) == s
  {
    FourDigits();
    PaddedOfValue(s[..4]);
    TwoOfValue(s[5..7]);
    TwoOfValue(s[8..10]);
    TwoOfValue(s[11..13]);
    TwoOfValue(s[14..]);
    ShapedIsAssembled(s);
    assert LocalText(Written(s)) == Assembled(s[..4], s[5..7], s[8..10], s[11..13], s[14..]);
  }

  ghost predicate IsRelease(s: string, f: Fields) {
    Real(f) && 0 <= f.year <= 9999 && s == LocalText(f)
  }

  lemma NearYear(utc: int, f: Fields, offset: int)
    requires Real(f) && 0 <= f.year <= 9999 && -1440 < offset < 1440 && utc == Minutes(f) - offset
    ensures -1 <= FieldsOf(utc).year <= 10_000
  {
    var g := FieldsOf(utc);
    MinuteOfFields(utc);
    DayInYear(f.year, f.month, f.day);
    DayInYear(g.year, g.month, g.day);
    YearLength(f.year);
    if g.year < -1 {
      YearsGrow(g.year + 1, -1);
      YearsGrow(-1, f.year);
    } else if g.year > 10_000 {
      YearsGrow(f.year + 1, 10_000);
      YearsGrow(10_000, g.year);
    }
  }

  lemma ReleaseRead(s: string, parse: Fields -> Option<int>, offset: int, f: Fields, r: Reading)
    requires Shaped(s) && !Blank(s) && Written(s) == f && r == Checked(f, parse(f), offset)
    ensures ReadRelease(s, parse, offset) == r
  {
  }

  lemma CheckedAt(f: Fields, t: int, offset: int, utc: int)
    requires FieldsOf(t) == f && utc + offset == t
    ensures Checked(f, Some(utc), offset) == Instant(utc)
  {
  }

  lemma FieldsRead(s: string, parse: Fields -> Option<int>, offset: int, f: Fields, utc: int)
    requires Shaped(s) && !Blank(s) && Written(s) == f && parse(f) == Some(utc)
    requires Real(f) && utc == Minutes(f) - offset
    ensures ReadRelease(s, parse, offset) == Instant(utc)
  {
    assert FieldsOf(Minutes(f)) == f by {
      FieldsRoundTrip(f);
    }
    CheckedAt(f, Minutes(f), offset, utc);
    ReleaseRead(s, parse, offset, f, Instant(utc));
  }

  lemma ReleaseReads(s: string, parse: Fields -> Option<int>, offset: int, f: Fields, utc: int)
    requires Conforming(parse, offset) && IsRelease(s, f) && utc == Minutes(f) - offset
    ensures ReadRelease(s, parse, offset) == Instant(utc)
  {
    LocalTextReads(f);
    FieldsRead(s, parse, offset, f, utc);
  }

  lemma ReadIsRelease(s: string, parse: Fields -> Option<int>, offset: int)
    requires ReadRelease(s, parse, offset).Instant?
    ensures IsRelease(s, Written(s))
  {
    WrittenPrints(s);
  }

  /** The instant of the local fields, in a UTC year from -1 to 10000. */
  predicate StandsFor(r: Reading, f: Fields, offset: int)
    requires Real(f)
  {
    r == Instant(Minutes(f) - offset) && Near(r.utc)
  }

  predicate Near(t: int) {
    -1 <= FieldsOf(t).year <= 10_000
  }

  lemma ReleaseNear(s: string, parse: Fields -> Option<int>, offset: int, f: Fields, utc: int)
    requires Conforming(parse, offset) && IsRelease(s, f) && utc == Minutes(f) - offset
    ensures StandsFor(ReadRelease(s, parse, offset), f, offset)
  {
    ReleaseReads(s, parse, offset, f, utc);
    NearYear(utc, f, offset);
  }

  lemma ReadsIff(s: string, parse: Fields -> Option<int>, offset: int)
    requires Conforming(parse, offset)
    ensures ReadRelease(s, parse, offset).Instant? <==> exists f :: IsRelease(s, f)
  {
    if ReadRelease(s, parse, offset).Instant? {
      ReadIsRelease(s, parse, offset);
    }
    if f :| IsRelease(s, f) {
      ReleaseReads(s, parse, offset, f, Minutes(f) - offset);
    }
  }

  /** Accepted text is exactly the text of a real calendar date and time, whatever the engine makes
      of other dates; it stands for that local instant, in a UTC year from -1 to 10000. */
  lemma AcceptedIff(s: string, parse: Fields -> Option<int>, offset: int)
    requires Conforming(parse, offset)
    ensures ReadRelease(s, parse, offset).Instant? <==> exists f :: IsRelease(s, f)
    ensures forall f | IsRelease(s, f) :: StandsFor(ReadRelease(s, parse, offset), f, offset)
  {
    forall f | IsRelease(s, f) ensures StandsFor(ReadRelease(s, parse, offset), f, offset) {
      ReleaseNear(s, parse, offset, f, Minutes(f) - offset);
    }
    ReadsIff(s, parse, offset);
  }

  // ---- Order of ISO texts ----

  /** Texts of equal parts compare part by part, whatever separates them. */
  lemma Next(p: string, q: string, sep: string, x: string, y: string)
    requires |p| == |q|
    ensures Less(p + sep + x, q + sep + y) <==> Less(p, q) || (p == q && Less(x, y))
    ensures p + sep + x == q + sep + y <==> p == q && x == y
  {
    LessConcat(p, sep, q, sep);
    LessConcat(p + sep, x, q + sep, y);
    LessTrichotomy(sep, sep);
    assert (p + sep)[..|p|] == p && (q + sep)[..|p|] == q;
    assert (p + sep + x)[..|p| + |sep|] == p + sep && (q + sep + y)[..|p| + |sep|] == q + sep;
    assert (p + sep + x)[|p| + |sep|..] == x && (q + sep + y)[|p| + |sep|..] == y;
  }

  lemma TwoOrder(m: int, n: int)
    requires 0 <= m < 100 && 0 <= n < 100
    ensures Less(Two(m), Two(n)) <==> m < n
    ensures Two(m) == Two(n) <==> m == n
  {
    var s, t := Two(m), Two(n);
    assert s == [s[0], s[1]] && t == [t[0], t[1]];
    assert Less(s, t) <==> s[0] < t[0] || (s[0] == t[0] && Less(s[1..], t[1..]));
    assert Less(s[1..], t[1..]) <==> s[1] < t[1];
  }

  lemma DateTimeOrder(f: Fields, g: Fields)
    requires Real(f) && Real(g) && f.year == g.year
    ensures Less(DateTimeText(f), DateTimeText(g)) <==> Earlier(f, g)
    ensures DateTimeText(f) == DateTimeText(g) <==> f == g
  {
    TwoOrder(f.month, g.month);
    TwoOrder(f.day, g.day);
    TwoOrder(f.hour, g.hour);
    TwoOrder(f.minute, g.minute);
    var a, b := "-" + Two(f.month), "-" + Two(g.month);
    Next("", "", "-", Two(f.month), Two(g.month));
    assert "" + "-" + Two(f.month) == a && "" + "-" + Two(g.month) == b;
    var c, d := a + "-" + Two(f.day), b + "-" + Two(g.day);
    Next(a, b, "-", Two(f.day), Two(g.day));
    var h, k := c + "T" + Two(f.hour), d + "T" + Two(g.hour);
    Next(c, d, "T", Two(f.hour), Two(g.hour));
    Next(h, k, ":", Two(f.minute), Two(g.minute));
  }

  lemma SuffixOrder(p: string, q: string, sfx: string)
    requires |p| == |q|
    ensures Less(p + sfx, q + sfx) <==> Less(p, q)
  {
    LessConcat(p, sfx, q, sfx);
    LessTrichotomy(sfx, sfx);
  }

  predicate InYear10000(t: int) {
    FieldsOf(t).year == 10_000
  }

  lemma SameWidthOrder(s: int, t: int)
    requires Near(s) && Near(t) && |YearText(FieldsOf(s).year)| == |YearText(FieldsOf(t).year)|
    requires InYear10000(s) <==> InYear10000(t)
    ensures Less(IsoText(s), IsoText(t)) <==> s < t
  {
    var f, g := FieldsOf(s), FieldsOf(t);
    var y, z := YearText(f.year), YearText(g.year);
    FourDigits();
    if 0 <= f.year <= 9999 {
      PaddedOrder(f.year, g.year, 4);
    } else {
      assert f.year == g.year;
      LessTrichotomy(y, z);
    }
    assert (Less(y, z) <==> f.year < g.year) && (y == z <==> f.year == g.year);
    LessConcat(y, DateTimeText(f), z, DateTimeText(g));
    SuffixOrder(y + DateTimeText(f), z + DateTimeText(g), ":00.000Z");
    if f.year == g.year {
      DateTimeOrder(f, g);
    }
    InstantOrder(s, t);
  }

  lemma FirstCharDecides(a: string, b: string)
    requires a != "" && b != "" && a[0] != b[0]
    ensures Less(a, b) <==> a[0] < b[0]
  {
  }

  lemma IsoStart(t: int)
    requires Near(t)
    ensures var y := YearText(FieldsOf(t).year); y != "" && IsoText(t) != "" && IsoText(t)[0] == y[0]
  {
  }

  lemma LaterYear(s: int, t: int)
    requires FieldsOf(s).year < FieldsOf(t).year
    ensures s < t
  {
    InstantOrder(s, t);
  }

  /** Years of different widths are told apart by the first character: '+' before '-' before digits. */
  lemma OtherWidthOrder(s: int, t: int)
    requires Near(s) && Near(t) && FieldsOf(s).year < FieldsOf(t).year
    requires FieldsOf(s).year == -1 || FieldsOf(t).year == 10_000
    ensures s < t
    ensures Less(IsoText(s), IsoText(t)) <==> !InYear10000(t)
    ensures Less(IsoText(t), IsoText(s)) <==> InYear10000(t)
  {
    LaterYear(s, t);
    IsoStart(s);
    IsoStart(t);
    FirstCharDecides(IsoText(s), IsoText(t));
    FirstCharDecides(IsoText(t), IsoText(s));
  }

  /** The text order of ISO texts is the order of the instants exactly when both or neither fall in
      the UTC year 10000, whose texts start with a plus sign and so come before all others. */
  lemma IsoOrder(s: int, t: int)
    requires Near(s) && Near(t)
    ensures (InYear10000(s) <==> InYear10000(t)) ==> (Less(IsoText(s), IsoText(t)) <==> s < t)
    ensures InYear10000(s) && !InYear10000(t) ==> Less(IsoText(s), IsoText(t)) && t < s
  {
    var y, z := FieldsOf(s).year, FieldsOf(t).year;
    if y < z && (y == -1 || z == 10_000) {
      OtherWidthOrder(s, t);
    } else if z < y && (z == -1 || y == 10_000) {
      OtherWidthOrder(t, s);
    } else {
      SameWidthOrder(s, t);
    }
  }

  // ---- Checking a draft ----

  /** A release as normalizePlannedReleaseInput returns it: null, the ISO text, or an error thrown. */
  datatype Release = Unscheduled | At(iso: string) | Invalid

  function NormalizePlannedRelease(s: string, parse: Fields -> Option<int>, offset: int): (r: Release) {
    match ReadRelease(s, parse, offset)
    case Empty => Unscheduled
    case Bad => Invalid
    case Instant(utc) => At(IsoText(utc))
  }

  lemma ReadKinds(s: string, parse: Fields -> Option<int>, offset: int)
    ensures var r, n := ReadRelease(s, parse, offset), NormalizePlannedRelease(s, parse, offset);
            && (r == Empty <==> forall i | 0 <= i < |s| :: TrimSpace(s[i]))
            && (n == Unscheduled <==> r == Empty) && (n == Invalid <==> r == Bad)
            && (r.Instant? ==> n == At(IsoText(r.utc)))
  {
  }

  /** White space only is no release; the text of a real date and time is the ISO text of its instant;
      anything else is an error. */
  lemma NormalizedIff(s: string, parse: Fields -> Option<int>, offset: int)
    requires Conforming(parse, offset)
    ensures NormalizePlannedRelease(s, parse, offset) == Unscheduled <==> forall i | 0 <= i < |s| :: EcmaSpace(s[i])
    ensures NormalizePlannedRelease(s, parse, offset).At? <==> exists f :: IsRelease(s, f)
  {
    ReadKinds(s, parse, offset);
    ReadsIff(s, parse, offset);
    forall i | 0 <= i < |s| ensures TrimSpace(s[i]) <==> EcmaSpace(s[i]) {
      TrimSpaceIff(s[i]);
    }
  }

  lemma NormalizedText(s: string, parse: Fields -> Option<int>, offset: int, f: Fields, utc: int)
    requires Conforming(parse, offset) && IsRelease(s, f) && utc == Minutes(f) - offset
    ensures NormalizePlannedRelease(s, parse, offset) == At(IsoText(utc))
  {
    ReleaseReads(s, parse, offset, f, utc);
    ReadKinds(s, parse, offset);
  }

  lemma IsoParts(a: string, b: string, s: string)
    requires s == a + b + ":00.000Z" && |a| == 4 && |b| == 12
    ensures |s| == 24 && s[..16] == a + b && s[16..] == ":00.000Z"
  {
  }

  /** In the UTC years 0 to 9999 the ISO text is the date and time of the instant in UTC, to the minute,
      and reading that part back gives the instant. */
  lemma IsoReadsBack(t: int, f: Fields, parse: Fields -> Option<int>)
    requires f == FieldsOf(t) && 0 <= f.year <= 9999 && Conforming(parse, 0)
    ensures |IsoText(t)| == 24 && IsoText(t)[16..] == ":00.000Z"
    ensures ReadRelease(IsoText(t)[..16], parse, 0) == Instant(t)
  {
    IsoParts(Padded(f.year, 4), DateTimeText(f), IsoText(t));
    MinuteOfFields(t);
    ReleaseReads(LocalText(f), parse, 0, f, t);
  }

  /** Other years are written with a sign and six digits. */
  lemma IsoOfOtherYears(t: int, y: int)
    requires y == FieldsOf(t).year && (-1_000_000 < y < 0 || 9999 < y < 1_000_000)
    ensures var s := IsoText(t);
            && |s| == 27 && s[0] == (if y < 0 then '-' else '+') && AllDigits(s[1..7])
            && Value(s[1..7]) == (if y < 0 then -y else y) && s[7..] == DateTimeText(FieldsOf(t)) + ":00.000Z"
  {
    var digits := Padded(if y < 0 then -y else y, 6);
    assert Pow10(6) == 1_000_000 by {
      FourDigits();
      assert Pow10(5) == 10 * Pow10(4) && Pow10(6) == 10 * Pow10(5);
    }
    PaddedValue(if y < 0 then -y else y, 6);
    SignedParts(if y < 0 then '-' else '+', digits, DateTimeText(FieldsOf(t)), IsoText(t));
  }

  lemma SignedParts(sign: char, digits: string, b: string, s: string)
    requires s == [sign] + digits + b + ":00.000Z" && |digits| == 6 && |b| == 12
    ensures |s| == 27 && s[0] == sign && s[1..7] == digits && s[7..] == b + ":00.000Z"
  {
  }

  datatype Item = Item(run: string, release: string)

  /** selected says that the status is SELECTED; a missing candidate id is the empty text, as falsy. */
  datatype Run = Run(id: string, selected: bool, candidate: string, revision: string)

  datatype Complaint = WrongCount | NotDistinctFinalized | SameCandidate | MixedRevisions | BadRelease | NotIncreasing

  function Find(runs: seq<Run>, id: string): (r: Option<Run>) {
    if runs == [] then None else if runs[0].id == id then Some(runs[0]) else Find(runs[1..], id)
  }

  predicate Eligible(r: Option<Run>) {
    r.Some? && r.value.selected && r.value.candidate != ""
  }

  /** The size of a Set made from the list. */
  function Distinct<T(==)>(s: seq<T>): (n: nat) {
    |Elements(s)|
  }

  function Elements<T(==)>(s: seq<T>): set<T> {
    set x <- s
  }

  function Scheduled(releases: seq<Release>): (r: seq<string>) {
    if releases == [] then []
    else (if releases[0].At? then [releases[0].iso] else []) + Scheduled(releases[1..])
  }

  predicate Increasing(texts: seq<string>) {
    forall i | 0 < i < |texts| :: Less(texts[i - 1], texts[i])
  }

  function OrderComplaint(releases: seq<Release>): (r: Option<Complaint>) {
    if Invalid in releases then Some(BadRelease)
    else if !Increasing(Scheduled(releases)) then Some(NotIncreasing)
    else None
  }

  function Ids(items: seq<Item>): (r: seq<string>)
    ensures |r| == |items| && forall i | 0 <= i < |r| :: r[i] == items[i].run
  {
    seq(|items|, i requires 0 <= i < |items| => items[i].run)
  }

  function RunsOf(items: seq<Item>, runs: seq<Run>): (r: seq<Option<Run>>)
    ensures |r| == |items| && forall i | 0 <= i < |r| :: r[i] == Find(runs, items[i].run)
  {
    seq(|items|, i requires 0 <= i < |items| => Find(runs, items[i].run))
  }

  predicate AllEligible(found: seq<Option<Run>>) {
    forall i | 0 <= i < |found| :: Eligible(found[i])
  }

  function Candidates(found: seq<Option<Run>>): (r: seq<string>)
    requires AllEligible(found)
    ensures |r| == |found| && forall i | 0 <= i < |r| :: r[i] == found[i].value.candidate
  {
    seq(|found|, i requires 0 <= i < |found| => found[i].value.candidate)
  }

  function Revisions(found: seq<Option<Run>>): (r: seq<string>)
    requires AllEligible(found)
    ensures |r| == |found| && forall i | 0 <= i < |r| :: r[i] == found[i].value.revision
  {
    seq(|found|, i requires 0 <= i < |found| => found[i].value.revision)
  }

  function Releases(items: seq<Item>, parse: Fields -> Option<int>, offset: int): (r: seq<Release>)
    ensures |r| == |items| && forall i | 0 <= i < |r| :: r[i] == NormalizePlannedRelease(items[i].release, parse, offset)
  {
    seq(|items|, i requires 0 <= i < |items| => NormalizePlannedRelease(items[i].release, parse, offset))
  }

  /** None is a draft without complaint. */
  function ValidateCampaignDraftItems(items: seq<Item>, runs: seq<Run>, parse: Fields -> Option<int>, offset: int)
    : (r: Option<Complaint>)
  {
    var found := RunsOf(items, runs);
    if !(1 <= |items| <= 50) then Some(WrongCount)
    else if Distinct(Ids(items)) != |items| || !AllEligible(found) then Some(NotDistinctFinalized)
    else if Distinct(Candidates(found)) != |items| then Some(SameCandidate)
    else if Distinct(Revisions(found)) != 1 then Some(MixedRevisions)
    else OrderComplaint(Releases(items, parse, offset))
  }

  ghost predicate AllDiffer<T>(s: seq<T>) {
    forall i, j | 0 <= i < j < |s| :: s[i] != s[j]
  }

  /** As many values as places means no value twice. */
  lemma {:induction false} DistinctExact<T>(s: seq<T>)
    ensures Distinct(s) <= |s|
    ensures Distinct(s) == |s| <==> AllDiffer(s)
  {
    if s != [] {
      var init, last := s[..|s| - 1], s[|s| - 1];
      DistinctExact(init);
      assert s == init + [last];
      assert Elements(s) == Elements(init) + {last};
      if last in init {
        assert Elements(s) == Elements(init);
        var i :| 0 <= i < |init| && init[i] == last;
        assert s[i] == s[|s| - 1];
      } else {
        assert |Elements(s)| == |Elements(init)| + 1;
        assert AllDiffer(s) <==> AllDiffer(init) by {
          if AllDiffer(s) {
            forall i, j | 0 <= i < j < |init| ensures init[i] != init[j] {
              assert s[i] != s[j];
            }
          }
        }
      }
    }
  }

  lemma OneValue<T>(s: seq<T>)
    requires s != []
    ensures Distinct(s) == 1 <==> forall i | 0 <= i < |s| :: s[i] == s[0]
  {
    var all := Elements(s);
    assert s[0] in all;
    if Distinct(s) == 1 {
      forall i | 0 <= i < |s| ensures s[i] == s[0] {
        if s[i] != s[0] {
          assert {s[0], s[i]} <= all;
          SubsetSize({s[0], s[i]}, all);
        }
      }
    }
    if forall i | 0 <= i < |s| :: s[i] == s[0] {
      assert all == {s[0]};
    }
  }

  lemma {:induction false} SubsetSize<T>(a: set<T>, b: set<T>)
    requires a <= b
    ensures |a| <= |b|
    decreases a
  {
    if x :| x in a {
      SubsetSize(a - {x}, b - {x});
    }
  }

  lemma {:induction false} ScheduledHas(releases: seq<Release>, text: string)
    ensures text in Scheduled(releases) <==> At(text) in releases
  {
    if releases != [] {
      ScheduledHas(releases[1..], text);
      assert releases == [releases[0]] + releases[1..];
    }
  }

  lemma {:induction false} BelowAll(t: string, texts: seq<string>)
    requires texts != [] && Less(t, texts[0]) && Increasing(texts)
    ensures forall x <- texts :: Less(t, x)
  {
    if |texts| > 1 {
      LessTransitive(t, texts[0], texts[1]);
      assert Increasing(texts[1..]) by {
        forall i | 0 < i < |texts[1..]| ensures Less(texts[1..][i - 1], texts[1..][i]) {
          assert Less(texts[i], texts[i + 1]);
        }
      }
      BelowAll(t, texts[1..]);
    }
  }

  predicate TextPair(a: Release, b: Release) {
    a.At? && b.At? ==> Less(a.iso, b.iso)
  }

  ghost predicate PairsIncrease(releases: seq<Release>) {
    forall i, j | 0 <= i < j < |releases| :: TextPair(releases[i], releases[j])
  }

  lemma IncreasingCons(t: string, texts: seq<string>)
    ensures Increasing([t] + texts) <==> Increasing(texts) && (texts != [] ==> Less(t, texts[0]))
  {
    var all := [t] + texts;
    if Increasing(all) {
      forall i | 0 < i < |texts| ensures Less(texts[i - 1], texts[i]) {
        assert Less(all[i], all[i + 1]);
      }
      if texts != [] {
        assert Less(all[0], all[1]);
      }
    }
  }

  /** Neighbours among the scheduled releases increase exactly when every earlier scheduled release
      precedes every later one, unscheduled items between them or not. */
  lemma {:induction false} NeighboursSuffice(releases: seq<Release>)
    ensures Increasing(Scheduled(releases)) <==> PairsIncrease(releases)
  {
    if releases != [] {
      var head, rest := releases[0], releases[1..];
      NeighboursSuffice(rest);
      var texts := Scheduled(rest);
      assert PairsIncrease(releases) <==>
             PairsIncrease(rest) && (head.At? ==> forall x | At(x) in rest :: Less(head.iso, x)) by {
        PairsCons(head, rest);
        assert releases == [head] + rest;
      }
      forall x ensures x in texts <==> At(x) in rest {
        ScheduledHas(rest, x);
      }
      if head.At? {
        IncreasingCons(head.iso, texts);
        if texts != [] {
          assert texts[0] in texts;
          if Less(head.iso, texts[0]) && Increasing(texts) {
            BelowAll(head.iso, texts);
          }
        }
      } else {
        assert Scheduled(releases) == texts;
      }
    }
  }

  lemma PairsCons(head: Release, rest: seq<Release>)
    ensures PairsIncrease([head] + rest) <==>
            PairsIncrease(rest) && (head.At? ==> forall x | At(x) in rest :: Less(head.iso, x))
  {
    var all := [head] + rest;
    if PairsIncrease(all) {
      forall i, j | 0 <= i < j < |rest| && rest[i].At? && rest[j].At? ensures Less(rest[i].iso, rest[j].iso) {
        assert all[i + 1] == rest[i] && all[j + 1] == rest[j];
      }
      if head.At? {
        forall x | At(x) in rest ensures Less(head.iso, x) {
          var j :| 0 <= j < |rest| && rest[j] == At(x);
          assert all[0] == head && all[j + 1] == rest[j];
        }
      }
    }
    if PairsIncrease(rest) && (head.At? ==> forall x | At(x) in rest :: Less(head.iso, x)) {
      forall i, j | 0 <= i < j < |all| && all[i].At? && all[j].At? ensures Less(all[i].iso, all[j].iso) {
        assert all[j] == rest[j - 1] && At(all[j].iso) in rest;
        if i > 0 {
          assert all[i] == rest[i - 1];
        }
      }
    }
  }

  // ---- What each complaint means ----

  predicate CountOk(items: seq<Item>) {
    1 <= |items| <= 50
  }

  /** Different runs, each finalized. */
  ghost predicate RunsOk(items: seq<Item>, runs: seq<Run>) {
    && (forall i, j | 0 <= i < j < |items| :: items[i].run != items[j].run)
    && (forall i | 0 <= i < |items| :: Eligible(Find(runs, items[i].run)))
  }

  function CandidateOf(runs: seq<Run>, id: string): string {
    match Find(runs, id) case None => "" case Some(r) => r.candidate
  }

  function RevisionOf(runs: seq<Run>, id: string): string {
    match Find(runs, id) case None => "" case Some(r) => r.revision
  }

  ghost predicate CandidatesOk(items: seq<Item>, runs: seq<Run>) {
    forall i, j | 0 <= i < j < |items| :: CandidateOf(runs, items[i].run) != CandidateOf(runs, items[j].run)
  }

  ghost predicate RevisionsOk(items: seq<Item>, runs: seq<Run>) {
    forall i, j | 0 <= i < j < |items| :: RevisionOf(runs, items[i].run) == RevisionOf(runs, items[j].run)
  }

  ghost predicate ReleasesOk(items: seq<Item>, parse: Fields -> Option<int>, offset: int) {
    forall i | 0 <= i < |items| :: !NormalizePlannedRelease(items[i].release, parse, offset).Invalid?
  }

  lemma OrderComplaintIff(releases: seq<Release>)
    ensures var read := forall i | 0 <= i < |releases| :: !releases[i].Invalid?;
            OrderComplaint(releases) ==
            if !read then Some(BadRelease) else if !PairsIncrease(releases) then Some(NotIncreasing) else None
  {
    NeighboursSuffice(releases);
  }

  lemma IdsDiffer(items: seq<Item>)
    ensures Distinct(Ids(items)) == |items| <==> forall i, j | 0 <= i < j < |items| :: items[i].run != items[j].run
  {
    DistinctExact(Ids(items));
    if forall i, j | 0 <= i < j < |items| :: items[i].run != items[j].run {
      assert AllDiffer(Ids(items));
    }
    if AllDiffer(Ids(items)) {
      forall i, j | 0 <= i < j < |items| ensures items[i].run != items[j].run {
        assert Ids(items)[i] != Ids(items)[j];
      }
    }
  }

  lemma CandidatesDiffer(found: seq<Option<Run>>, items: seq<Item>, runs: seq<Run>)
    requires found == RunsOf(items, runs) && AllEligible(found)
    ensures Distinct(Candidates(found)) == |found| <==> CandidatesOk(items, runs)
  {
    var c := Candidates(found);
    DistinctExact(c);
    forall i | 0 <= i < |items| ensures c[i] == CandidateOf(runs, items[i].run) {
      assert Eligible(found[i]);
    }
    if AllDiffer(c) {
      forall i, j | 0 <= i < j < |items| ensures CandidateOf(runs, items[i].run) != CandidateOf(runs, items[j].run) {
        assert c[i] != c[j];
      }
    }
  }

  lemma OneRevision(found: seq<Option<Run>>, items: seq<Item>, runs: seq<Run>)
    requires found == RunsOf(items, runs) && AllEligible(found) && found != []
    ensures Distinct(Revisions(found)) == 1 <==> RevisionsOk(items, runs)
  {
    var r := Revisions(found);
    OneValue(r);
    forall i | 0 <= i < |items| ensures r[i] == RevisionOf(runs, items[i].run) {
      assert Eligible(found[i]);
    }
    if forall i | 0 <= i < |r| :: r[i] == r[0] {
      forall i, j | 0 <= i < j < |items| ensures RevisionOf(runs, items[i].run) == RevisionOf(runs, items[j].run) {
        assert r[i] == r[0] && r[j] == r[0];
      }
    }
    if RevisionsOk(items, runs) {
      forall i | 0 < i < |r| ensures r[i] == r[0] {
        assert RevisionOf(runs, items[0].run) == RevisionOf(runs, items[i].run);
      }
    }
  }

  /** Each answer exactly when its rule is the first one broken; no complaint when none is. */
  lemma ComplaintIff(items: seq<Item>, runs: seq<Run>, parse: Fields -> Option<int>, offset: int)
    ensures var r := ValidateCampaignDraftItems(items, runs, parse, offset);
            if !CountOk(items) then r == Some(WrongCount)
            else if !RunsOk(items, runs) then r == Some(NotDistinctFinalized)
            else if !CandidatesOk(items, runs) then r == Some(SameCandidate)
            else if !RevisionsOk(items, runs) then r == Some(MixedRevisions)
            else if !ReleasesOk(items, parse, offset) then r == Some(BadRelease)
            else if !PairsIncrease(Releases(items, parse, offset)) then r == Some(NotIncreasing)
            else r == None
  {
    var found, releases := RunsOf(items, runs), Releases(items, parse, offset);
    OrderComplaintIff(releases);
    AllRead(items, parse, offset);
    if CountOk(items) {
      IdsDiffer(items);
      FoundEligible(items, runs);
      if AllEligible(found) {
        CandidatesDiffer(found, items, runs);
        OneRevision(found, items, runs);
      }
    }
  }

  lemma AllRead(items: seq<Item>, parse: Fields -> Option<int>, offset: int)
    ensures (forall i | 0 <= i < |items| :: !Releases(items, parse, offset)[i].Invalid?) <==>
            forall i | 0 <= i < |items| :: !NormalizePlannedRelease(items[i].release, parse, offset).Invalid?
  {
    forall i | 0 <= i < |items|
      ensures Releases(items, parse, offset)[i] == NormalizePlannedRelease(items[i].release, parse, offset)
    {
    }
  }

  lemma FoundEligible(items: seq<Item>, runs: seq<Run>)
    ensures AllEligible(RunsOf(items, runs)) <==> forall i | 0 <= i < |items| :: Eligible(Find(runs, items[i].run))
  {
    forall i | 0 <= i < |items| ensures RunsOf(items, runs)[i] == Find(runs, items[i].run) {
    }
  }

  // ---- Order of texts and order of instants ----

  /** For two different instants the text order is right, in both directions, exactly when both or
      neither lie in the UTC year 10000. */
  lemma TextOrderIff(s: int, t: int)
    requires Near(s) && Near(t) && s != t
    ensures (Less(IsoText(s), IsoText(t)) <==> s < t) <==> (InYear10000(s) <==> InYear10000(t))
  {
    IsoOrder(s, t);
    IsoOrder(t, s);
    LessTrichotomy(IsoText(s), IsoText(t));
    InstantOrder(s, t);
  }

  predicate InstantPair(a: Reading, b: Reading) {
    a.Instant? && b.Instant? ==> a.utc < b.utc
  }

  ghost predicate InstantsIncrease(items: seq<Item>, parse: Fields -> Option<int>, offset: int) {
    forall i, j | 0 <= i < j < |items| ::
      InstantPair(ReadRelease(items[i].release, parse, offset), ReadRelease(items[j].release, parse, offset))
  }

  lemma ReadIsNear(s: string, parse: Fields -> Option<int>, offset: int)
    requires Conforming(parse, offset) && ReadRelease(s, parse, offset).Instant?
    ensures Near(ReadRelease(s, parse, offset).utc)
  {
    AcceptedIff(s, parse, offset);
    var f :| IsRelease(s, f);
  }

  /** Two releases that both have an instant, of which one lies in the UTC year 10000 and the other does not. */
  predicate Crosses(a: Reading, b: Reading) {
    a.Instant? && b.Instant? && InYear10000(a.utc) != InYear10000(b.utc)
  }

  /** All scheduled releases lie on the same side of the turn to the UTC year 10000. */
  ghost predicate OneSide(items: seq<Item>, parse: Fields -> Option<int>, offset: int) {
    forall i, j | 0 <= i < j < |items| ::
      !Crosses(ReadRelease(items[i].release, parse, offset), ReadRelease(items[j].release, parse, offset))
  }

  /** For one pair: the same answer on one side, opposite answers across the turn. */
  lemma PairIff(s: string, t: string, parse: Fields -> Option<int>, offset: int)
    requires Conforming(parse, offset)
    ensures var a, b := ReadRelease(s, parse, offset), ReadRelease(t, parse, offset);
            TextPair(NormalizePlannedRelease(s, parse, offset), NormalizePlannedRelease(t, parse, offset)) ==
            if Crosses(a, b) then !InstantPair(a, b) else InstantPair(a, b)
  {
    var a, b := ReadRelease(s, parse, offset), ReadRelease(t, parse, offset);
    if a.Instant? && b.Instant? {
      ReadIsNear(s, parse, offset);
      ReadIsNear(t, parse, offset);
      IsoOrder(a.utc, b.utc);
      IsoOrder(b.utc, a.utc);
      LessTrichotomy(IsoText(a.utc), IsoText(b.utc));
    }
  }

  lemma PairAt(items: seq<Item>, parse: Fields -> Option<int>, offset: int, i: nat, j: nat)
    requires Conforming(parse, offset) && i < j < |items|
    ensures var a, b := ReadRelease(items[i].release, parse, offset), ReadRelease(items[j].release, parse, offset);
            TextPair(Releases(items, parse, offset)[i], Releases(items, parse, offset)[j]) ==
            if Crosses(a, b) then !InstantPair(a, b) else InstantPair(a, b)
  {
    PairIff(items[i].release, items[j].release, parse, offset);
  }

  /** On one side of the turn the comparison of texts that the validator makes is the comparison of
      instants it is meant to make. A draft in order of its instants passes it only there, and so a
      draft that passes it is in order only there. */
  lemma DraftOrderIff(items: seq<Item>, parse: Fields -> Option<int>, offset: int)
    requires Conforming(parse, offset)
    ensures var texts, instants := PairsIncrease(Releases(items, parse, offset)), InstantsIncrease(items, parse, offset);
            && (OneSide(items, parse, offset) ==> (texts <==> instants))
            && (instants ==> (texts <==> OneSide(items, parse, offset)))
            && (texts ==> (instants <==> OneSide(items, parse, offset)))
  {
    var releases := Releases(items, parse, offset);
    forall i, j | 0 <= i < j < |items|
      ensures var a, b := ReadRelease(items[i].release, parse, offset), ReadRelease(items[j].release, parse, offset);
              TextPair(releases[i], releases[j]) == if Crosses(a, b) then !InstantPair(a, b) else InstantPair(a, b)
    {
      PairAt(items, parse, offset, i, j);
    }
  }

  lemma NewYear(y: int)
    ensures DayNumber(y + 1, 1, 1) == DayNumber(y, 12, 31) + 1
  {
    TwelveMonths(y);
    YearLength(y);
    assert DaysBeforeMonth(y, 13) == DaysBeforeMonth(y, 12) + 31;
  }

  lemma EveningWest(early: Fields, late: Fields, y: int)
    requires early == Fields(y, 12, 31, 18, 59) && late == Fields(y, 12, 31, 19, 0)
    ensures Real(early) && Real(late) && Minutes(early) < Minutes(late)
    ensures FieldsOf(Minutes(early) + 300) == Fields(y, 12, 31, 23, 59)
    ensures FieldsOf(Minutes(late) + 300) == Fields(y + 1, 1, 1, 0, 0)
  {
    var a, b := Fields(y, 12, 31, 23, 59), Fields(y + 1, 1, 1, 0, 0);
    NewYear(y);
    assert Minutes(early) + 300 == Minutes(a) && Minutes(late) + 300 == Minutes(b);
    FieldsRoundTrip(a);
    FieldsRoundTrip(b);
  }

  lemma CrossingSortsBackwards(s: int, t: int, y: int)
    requires y == 9999 && FieldsOf(s).year == y && FieldsOf(t).year == y + 1
    ensures Less(IsoText(t), IsoText(s))
  {
    IsoOrder(t, s);
  }

  lemma LastYearText(y: int)
    requires y == 9999
    ensures Padded(y, 4) == "9999"
  {
    assert Padded(99, 2) == "99" && Padded(999, 3) == "999";
  }

  lemma EarlyText(f: Fields)
    requires f == Fields(9999, 12, 31, 18, 59)
    ensures IsRelease("9999-12-31T18:59", f)
  {
    LastYearText(f.year);
    assert DateTimeText(f) == "-12-31T18:59";
  }

  lemma LateText(f: Fields)
    requires f == Fields(9999, 12, 31, 19, 0)
    ensures IsRelease("9999-12-31T19:00", f)
  {
    LastYearText(f.year);
    assert DateTimeText(f) == "-12-31T19:00";
  }

  lemma LastEvening(early: Fields, late: Fields, s: int, t: int)
    requires early.year == 9999 && late.year == early.year
    requires early == Fields(early.year, 12, 31, 18, 59) && late == Fields(early.year, 12, 31, 19, 0)
    requires s == Minutes(early) + 300 && t == Minutes(late) + 300
    ensures s < t && Less(IsoText(t), IsoText(s))
  {
    assert s < t && FieldsOf(s).year == early.year && FieldsOf(t).year == early.year + 1 by {
      EveningWest(early, late, early.year);
    }
    CrossingSortsBackwards(s, t, early.year);
  }

  /** Five hours west of UTC, on the last evening of 9999: the later release has the smaller text. */
  lemma LastEveningSortsBackwards(early: Fields, late: Fields, e: string, l: string, parse: Fields -> Option<int>, offset: int)
    requires early.year == 9999 && late.year == early.year && offset == -300
    requires early == Fields(early.year, 12, 31, 18, 59) && late == Fields(early.year, 12, 31, 19, 0)
    requires IsRelease(e, early) && IsRelease(l, late) && Conforming(parse, offset)
    ensures var a, b := ReadRelease(e, parse, offset), ReadRelease(l, parse, offset);
            a.Instant? && b.Instant? && a.utc < b.utc && Less(IsoText(b.utc), IsoText(a.utc))
  {
    var s, t := Minutes(early) - offset, Minutes(late) - offset;
    ReleaseReads(e, parse, offset, early, s);
    ReleaseReads(l, parse, offset, late, t);
    LastEvening(early, late, s, t);
  }

  lemma TwoRunsOk(items: seq<Item>, runs: seq<Run>, a: Run, b: Run)
    requires |items| == 2 && items[0].run != items[1].run
    requires Find(runs, items[0].run) == Some(a) && Find(runs, items[1].run) == Some(b)
    requires Eligible(Some(a)) && Eligible(Some(b)) && a.candidate != b.candidate && a.revision == b.revision
    ensures CountOk(items) && RunsOk(items, runs) && CandidatesOk(items, runs) && RevisionsOk(items, runs)
  {
  }

  lemma TwoTexts(releases: seq<Release>, x: string, y: string)
    requires |releases| == 2 && releases[0] == At(x) && releases[1] == At(y)
    ensures PairsIncrease(releases) <==> Less(x, y)
  {
    assert TextPair(releases[0], releases[1]) <==> Less(x, y);
  }

  lemma ReleaseAt(items: seq<Item>, i: nat, parse: Fields -> Option<int>, offset: int)
    requires i < |items|
    ensures Releases(items, parse, offset)[i] == NormalizePlannedRelease(items[i].release, parse, offset)
  {
  }

  /** The two releases of a draft of two items. */
  ghost predicate ReleasesAre(items: seq<Item>, x: string, y: string, parse: Fields -> Option<int>, offset: int) {
    |items| == 2 && Releases(items, parse, offset)[0] == At(x) && Releases(items, parse, offset)[1] == At(y)
  }

  lemma TwoReleases(items: seq<Item>, x: string, y: string, parse: Fields -> Option<int>, offset: int)
    requires |items| == 2
    requires NormalizePlannedRelease(items[0].release, parse, offset) == At(x)
    requires NormalizePlannedRelease(items[1].release, parse, offset) == At(y)
    ensures ReleasesAre(items, x, y, parse, offset)
  {
    ReleaseAt(items, 0, parse, offset);
    ReleaseAt(items, 1, parse, offset);
  }

  /** For two different finalized runs only the order of their releases is left to decide. */
  lemma TwoItems(items: seq<Item>, runs: seq<Run>, a: Run, b: Run, x: string, y: string,
                 parse: Fields -> Option<int>, offset: int)
    requires |items| == 2 && items[0].run != items[1].run
    requires Find(runs, items[0].run) == Some(a) && Find(runs, items[1].run) == Some(b)
    requires Eligible(Some(a)) && Eligible(Some(b)) && a.candidate != b.candidate && a.revision == b.revision
    requires ReleasesAre(items, x, y, parse, offset)
    ensures ValidateCampaignDraftItems(items, runs, parse, offset) == if Less(x, y) then None else Some(NotIncreasing)
  {
    TwoRunsOk(items, runs, a, b);
    assert ReleasesOk(items, parse, offset) && (PairsIncrease(Releases(items, parse, offset)) <==> Less(x, y)) by {
      AllRead(items, parse, offset);
      TwoTexts(Releases(items, parse, offset), x, y);
    }
    ComplaintIff(items, runs, parse, offset);
  }

  /** Two finalized runs of different candidates. */
  const TWO_RUNS := [Run("r1", true, "c1", "v"), Run("r2", true, "c2", "v")]

  lemma FindsBoth()
    ensures Find(TWO_RUNS, "r1") == Some(TWO_RUNS[0]) && Find(TWO_RUNS, "r2") == Some(TWO_RUNS[1])
    ensures TWO_RUNS[0].candidate != TWO_RUNS[1].candidate && "r1" != "r2"
  {
    assert "c1"[1] != "c2"[1] && "r1"[1] != "r2"[1];
    assert TWO_RUNS[1..][0] == TWO_RUNS[1];
  }

  /** There the validator refuses the draft in order of its instants and accepts the reversed one. */
  lemma LastEveningVerdicts(parse: Fields -> Option<int>, early: Item, late: Item)
    requires Conforming(parse, -300)
    requires early == Item("r1", "9999-12-31T18:59") && late == Item("r2", "9999-12-31T19:00")
    ensures InstantsIncrease([early, late], parse, -300) && !InstantsIncrease([late, early], parse, -300)
    ensures ValidateCampaignDraftItems([early, late], TWO_RUNS, parse, -300) == Some(NotIncreasing)
    ensures ValidateCampaignDraftItems([late, early], TWO_RUNS, parse, -300) == None
  {
    EarlyText(Fields(9999, 12, 31, 18, 59));
    LateText(Fields(9999, 12, 31, 19, 0));
    LastEveningSortsBackwards(Fields(9999, 12, 31, 18, 59), Fields(9999, 12, 31, 19, 0), early.release, late.release,
                              parse, -300);
    FindsBoth();
    var a, b := ReadRelease(early.release, parse, -300), ReadRelease(late.release, parse, -300);
    TwoOrders(early, late, a.utc, b.utc, parse, -300);
    TwoReleases([early, late], IsoText(a.utc), IsoText(b.utc), parse, -300);
    TwoReleases([late, early], IsoText(b.utc), IsoText(a.utc), parse, -300);
    TwoVerdicts(TWO_RUNS, TWO_RUNS[0], TWO_RUNS[1], early, late, IsoText(a.utc), IsoText(b.utc), parse, -300);
  }

  lemma TwoOrders(early: Item, late: Item, s: int, t: int, parse: Fields -> Option<int>, offset: int)
    requires ReadRelease(early.release, parse, offset) == Instant(s) && ReadRelease(late.release, parse, offset) == Instant(t)
    requires s < t
    ensures InstantsIncrease([early, late], parse, offset) && !InstantsIncrease([late, early], parse, offset)
  {
    assert !InstantPair(Instant(t), Instant(s)) && [late, early][0] == late && [late, early][1] == early;
  }

  lemma TwoVerdicts(runs: seq<Run>, a: Run, b: Run, early: Item, late: Item, x: string, y: string,
                    parse: Fields -> Option<int>, offset: int)
    requires early.run != late.run && Find(runs, early.run) == Some(a) && Find(runs, late.run) == Some(b)
    requires Eligible(Some(a)) && Eligible(Some(b)) && a.candidate != b.candidate && a.revision == b.revision
    requires ReleasesAre([early, late], x, y, parse, offset) && ReleasesAre([late, early], y, x, parse, offset)
    requires Less(y, x)
    ensures ValidateCampaignDraftItems([early, late], runs, parse, offset) == Some(NotIncreasing)
    ensures ValidateCampaignDraftItems([late, early], runs, parse, offset) == None
  {
    LessTrichotomy(x, y);
    TwoItems([early, late], runs, a, b, x, y, parse, offset);
    TwoItems([late, early], runs, b, a, y, x, parse, offset);
  }

  // ---- Moving an item ----

  function Without<T>(s: seq<T>, k: nat): (r: seq<T>)
    requires k < |s|
    ensures |r| == |s| - 1
  {
    s[..k] + s[k + 1..]
  }

  predicate InRange(n: nat, from: int, to: int) {
    0 <= from < n && 0 <= to < n
  }

  /** The result of a move is the one list that has the item at its target and is the original
      list once the item is taken out of both; an index out of range moves nothing. */
  ghost predicate IsMoved<T>(s: seq<T>, from: int, to: int, r: seq<T>) {
    && |r| == |s|
    && if InRange(|s|, from, to) then r[to] == s[from] && Without(r, to) == Without(s, from) else r == s
  }

  method MoveCampaignItem<T>(items: seq<T>, from: int, to: int) returns (result: seq<T>)
    ensures IsMoved(items, from, to, result)
    ensures multiset(result) == multiset(items)
  {
    if from < 0 || from >= |items| || to < 0 || to >= |items| {
      return items;
    }
    result := items;
    var item := result[from];
    result := result[..from] + result[from + 1..];
    result := result[..to] + [item] + result[to..];
    assert Without(result, to) == Without(items, from);
    MovedKeepsItems(items, from, to, result);
  }

  lemma MovedKeepsItems<T>(s: seq<T>, from: int, to: int, r: seq<T>)
    requires IsMoved(s, from, to, r)
    ensures multiset(r) == multiset(s)
  {
    if InRange(|s|, from, to) {
      assert s == s[..from] + [s[from]] + s[from + 1..];
      assert r == r[..to] + [r[to]] + r[to + 1..];
      assert multiset(s) == multiset(Without(s, from)) + multiset{s[from]};
      assert multiset(r) == multiset(Without(r, to)) + multiset{r[to]};
    }
  }

  lemma Determined<T>(a: seq<T>, b: seq<T>, k: nat)
    requires |a| == |b| && k < |a| && a[k] == b[k] && Without(a, k) == Without(b, k)
    ensures a == b
  {
    forall i | 0 <= i < |a| ensures a[i] == b[i] {
      if i < k {
        assert a[i] == Without(a, k)[i] && b[i] == Without(b, k)[i];
      } else if i > k {
        assert a[i] == Without(a, k)[i - 1] && b[i] == Without(b, k)[i - 1];
      }
    }
  }

  /** Moving back undoes a move. */
  lemma MoveBack<T>(s: seq<T>, from: int, to: int, r: seq<T>, back: seq<T>)
    requires IsMoved(s, from, to, r) && IsMoved(r, to, from, back)
    ensures back == s
  {
    if InRange(|s|, from, to) {
      Determined(back, s, from);
    }
  }

  function Shifted(i: nat, k: nat): nat { if i < k then i else i + 1 }

  /** The other items keep their relative order: the place of an item among the others is the same. */
  lemma OthersKeepOrder<T>(s: seq<T>, from: int, to: int, r: seq<T>)
    requires IsMoved(s, from, to, r) && InRange(|s|, from, to)
    ensures forall i | 0 <= i < |s| - 1 :: r[Shifted(i, to)] == s[Shifted(i, from)]
  {
    forall i | 0 <= i < |s| - 1 ensures r[Shifted(i, to)] == s[Shifted(i, from)] {
      assert Without(r, to)[i] == Without(s, from)[i];
    }
  }
}
