/** The beat timeline of the canary video: units laid end to end, and the ASS times of their cues. */
module Timeline {
  import opened Wrappers
  import opened Text

  datatype AssetKind = Broll | Image
  datatype Beat = Beat(duration: nat, broll: bool, image: bool, narration: string)

  datatype Unit = Unit(index: nat, start: nat, end: nat, duration: nat)
  /** acquire is ACQUIRE_IF_NEEDED as against LOCAL_TEMPLATE. */
  datatype Asset = Asset(beat: nat, acquire: bool, kind: Option<AssetKind>)
  datatype Cue = Cue(start: nat, end: nat, text: string)

  function Total(beats: seq<Beat>): (ms: nat) {
    if beats == [] then 0 else Total(beats[..|beats| - 1]) + beats[|beats| - 1].duration
  }

  /** The i-th unit runs from the sum of the durations before it to that sum with its own. */
  function UnitAt(beats: seq<Beat>, i: nat): Unit
    requires i < |beats|
  {
    Unit(i, Total(beats[..i]), Total(beats[..i + 1]), beats[i].duration)
  }

  function CueText(raw: string, clean: string -> string): string {
    if clean(raw) == "" then raw else clean(raw)
  }

  function KindOf(b: Beat): Option<AssetKind> {
    if b.broll then Some(Broll) else if b.image then Some(Image) else None
  }

  function CueAt(beats: seq<Beat>, i: nat, clean: string -> string): Cue
    requires i < |beats|
  {
    Cue(Total(beats[..i]), Total(beats[..i + 1]), CueText(beats[i].narration, clean))
  }

  /** The first i units, assets and cues. An asset is acquired exactly where a kind is required. */
  ghost predicate Built(beats: seq<Beat>, clean: string -> string, i: nat, units: seq<Unit>, assets: seq<Asset>, cues: seq<Cue>) {
    && |units| == |assets| == |cues| == i <= |beats|
    && (forall j | 0 <= j < i :: units[j] == UnitAt(beats, j))
    && (forall j | 0 <= j < i :: assets[j] == Asset(j, KindOf(beats[j]).Some?, KindOf(beats[j])))
    && (forall j | 0 <= j < i :: cues[j] == CueAt(beats, j, clean))
  }

  lemma BuiltOneMore(beats: seq<Beat>, clean: string -> string, i: nat, units: seq<Unit>, assets: seq<Asset>, cues: seq<Cue>,
                     u: Unit, a: Asset, c: Cue)
    requires i < |beats| && Built(beats, clean, i, units, assets, cues)
    requires u == UnitAt(beats, i) && a == Asset(i, KindOf(beats[i]).Some?, KindOf(beats[i])) && c == CueAt(beats, i, clean)
    ensures Built(beats, clean, i + 1, units + [u], assets + [a], cues + [c])
  {
  }

  /** The loop over the beats; clean is the viewer-text filter, whose empty answer means the raw text. */
  method BuildTimeline(beats: seq<Beat>, clean: string -> string)
    returns (units: seq<Unit>, assets: seq<Asset>, cues: seq<Cue>)
    ensures Built(beats, clean, |beats|, units, assets, cues)
  {
    units, assets, cues := [], [], [];
    var now: nat := 0;
    assert beats[..0] == [];
    for i := 0 to |beats|
      invariant now == Total(beats[..i])
      invariant Built(beats, clean, i, units, assets, cues)
    {
      var b := beats[i];
      var start := now;
      var end := start + b.duration;
      now := end;
      NextTotal(beats, i);
      var unit := Unit(i, start, end, b.duration);
      var cleaned := clean(b.narration);
      var kind := if b.broll then Some(Broll) else if b.image then Some(Image) else None;
      var asset := Asset(i, b.broll || b.image, kind);
      var cue := Cue(start, end, if cleaned == "" then b.narration else cleaned);
      BuiltOneMore(beats, clean, i, units, assets, cues, unit, asset, cue);
      units, assets, cues := units + [unit], assets + [asset], cues + [cue];
    }
  }

  /** Each cue has the bounds of its unit and the filtered text, or the raw one where the filter leaves
      nothing; an asset is acquired exactly for a beat that needs moving or still pictures. */
  lemma CueAndAsset(beats: seq<Beat>, clean: string -> string, units: seq<Unit>, assets: seq<Asset>, cues: seq<Cue>, i: nat)
    requires Built(beats, clean, |beats|, units, assets, cues) && i < |beats|
    ensures cues[i].start == units[i].start && cues[i].end == units[i].end
    ensures cues[i].text == clean(beats[i].narration) || (clean(beats[i].narration) == "" && cues[i].text == beats[i].narration)
    ensures cues[i].text == "" ==> beats[i].narration == ""
    ensures assets[i].beat == i && (assets[i].acquire <==> beats[i].broll || beats[i].image)
    ensures assets[i].kind == if beats[i].broll then Some(Broll) else if beats[i].image then Some(Image) else None
  {
  }

  lemma NextTotal(beats: seq<Beat>, i: nat)
    requires i < |beats|
    ensures Total(beats[..i + 1]) == Total(beats[..i]) + beats[i].duration
  {
    assert beats[..i + 1][..i] == beats[..i];
  }

  lemma {:induction false} TotalGrows(beats: seq<Beat>, i: nat, j: nat)
    requires i <= j <= |beats|
    ensures Total(beats[..i]) <= Total(beats[..j])
    decreases j
  {
    if i < j {
      assert beats[..j][..j - 1] == beats[..j - 1];
      TotalGrows(beats, i, j - 1);
    }
  }

  ghost predicate UnitsOf(beats: seq<Beat>, units: seq<Unit>) {
    && |units| == |beats|
    && forall i | 0 <= i < |beats| :: units[i] == UnitAt(beats, i)
  }

  /** The units tile the time from 0 to the total: each starts where the one before it ends and
      lasts as long as its beat. */
  lemma UnitsTile(beats: seq<Beat>, units: seq<Unit>)
    requires UnitsOf(beats, units)
    ensures beats != [] ==> units[0].start == 0 && units[|units| - 1].end == Total(beats)
    ensures forall i | 0 < i < |units| :: units[i].start == units[i - 1].end
    ensures forall i | 0 <= i < |units| :: units[i].end == units[i].start + beats[i].duration
  {
    if beats != [] {
      assert beats[..0] == [] && beats[..|beats|] == beats;
      assert units[0] == UnitAt(beats, 0) && units[|units| - 1] == UnitAt(beats, |units| - 1);
    }
    forall i | 0 <= i < |units| ensures units[i].end == units[i].start + beats[i].duration {
      NextTotal(beats, i);
    }
    forall i | 0 < i < |units| ensures units[i].start == units[i - 1].end {
      assert units[i] == UnitAt(beats, i) && units[i - 1] == UnitAt(beats, i - 1);
    }
  }

  /** Every instant of the video belongs to exactly one unit. */
  lemma OneUnitEach(beats: seq<Beat>, units: seq<Unit>, t: nat)
    requires UnitsOf(beats, units) && t < Total(beats)
    ensures exists i | 0 <= i < |units| :: units[i].start <= t < units[i].end
    ensures forall i, j | 0 <= i < j < |units| :: !(units[i].start <= t < units[i].end && units[j].start <= t < units[j].end)
  {
    assert beats[..|beats|] == beats;
    var k := FindUnit(beats, t, |beats|);
    assert units[k] == UnitAt(beats, k);
    forall i, j | 0 <= i < j < |units| ensures units[i].end <= units[j].start {
      assert units[i] == UnitAt(beats, i) && units[j] == UnitAt(beats, j);
      TotalGrows(beats, i + 1, j);
    }
  }

  ghost function FindUnit(beats: seq<Beat>, t: nat, n: nat): (k: nat)
    requires n <= |beats| && t < Total(beats[..n])
    ensures k < n && Total(beats[..k]) <= t < Total(beats[..k + 1])
    decreases n
  {
    assert n > 0 ==> beats[..n][..n - 1] == beats[..n - 1];
    if Total(beats[..n - 1]) <= t then n - 1 else FindUnit(beats, t, n - 1)
  }

  // ---- ASS times ----

  /** Whether a tie is rounded up: it depends on the binary fraction next to ms / 1000. */
  type Ties = nat -> bool

  /** The seconds field in hundredths, rounded to nearest on its own. */
  function SecondsField(ms: nat, up: Ties): (c: nat)
    ensures c <= 6000
  {
    var r := ms % 60_000;
    r / 10 + (if r % 10 > 5 || (r % 10 == 5 && up(ms)) then 1 else 0)
  }

  function AssOf(h: string, m: string, s: string, c: string): string {
    h + ":" + m + ":" + s + "." + c
  }

  function AssText(ms: nat, up: Ties): (s: string) {
    var c := SecondsField(ms, up);
    AssOf(NatText(ms / 3_600_000), Padded(ms % 3_600_000 / 60_000, 2), Padded(c / 100, 2), Padded(c % 100, 2))
  }

  predicate AssShaped(s: string) {
    && |s| > 9
    && AllDigits(s[..|s| - 9]) && AllDigits(s[|s| - 8..|s| - 6]) && AllDigits(s[|s| - 5..|s| - 3]) && AllDigits(s[|s| - 2..])
  }

  /** The time an ASS reader makes of the text, in hundredths of a second. */
  function ReadAss(s: string): (c: nat)
    requires AssShaped(s)
  {
    Value(s[..|s| - 9]) * 360_000 + Value(s[|s| - 8..|s| - 6]) * 6000 + Value(s[|s| - 5..|s| - 3]) * 100 + Value(s[|s| - 2..])
  }

  function Hundredths(ms: nat, up: Ties): nat {
    ms / 3_600_000 * 360_000 + ms % 3_600_000 / 60_000 * 6000 + SecondsField(ms, up)
  }

  lemma AssSlices(h: string, m: string, s: string, c: string)
    requires |m| == |s| == |c| == 2
    ensures var t := AssOf(h, m, s, c);
            |t| == |h| + 9 && t[..|t| - 9] == h && t[|t| - 8..|t| - 6] == m && t[|t| - 5..|t| - 3] == s && t[|t| - 2..] == c
  {
    var t := AssOf(h, m, s, c);
    assert t[..|t| - 9] == h;
    assert t[|t| - 8..|t| - 6] == m;
    assert t[|t| - 5..|t| - 3] == s;
    assert t[|t| - 2..] == c;
  }

  lemma AssParts(h: string, m: string, s: string, c: string, t: string)
    requires h != "" && |m| == |s| == |c| == 2 && AllDigits(h) && AllDigits(m) && AllDigits(s) && AllDigits(c)
    requires t == AssOf(h, m, s, c)
    ensures AssShaped(t) && ReadAss(t) == Value(h) * 360_000 + Value(m) * 6000 + Value(s) * 100 + Value(c)
  {
    AssSlices(h, m, s, c);
  }

  lemma TwoPlaces()
    ensures Pow10(2) == 100
  {
    assert Pow10(1) == 10 * Pow10(0);
  }

  /** What is printed reads back as the rounded time. */
  lemma AssReadsBack(ms: nat, up: Ties)
    ensures AssShaped(AssText(ms, up)) && ReadAss(AssText(ms, up)) == Hundredths(ms, up)
  {
    var h, m, c := ms / 3_600_000, ms % 3_600_000 / 60_000, SecondsField(ms, up);
    TwoPlaces();
    NatTextValue(h);
    PaddedValue(m, 2);
    PaddedValue(c / 100, 2);
    PaddedValue(c % 100, 2);
    AssParts(NatText(h), Padded(m, 2), Padded(c / 100, 2), Padded(c % 100, 2), AssText(ms, up));
  }

  lemma HundredthsNear(ms: nat, up: Ties)
    ensures -5 <= 10 * Hundredths(ms, up) - ms <= 5
    ensures 10 * Hundredths(ms, up) - ms == 5 ==> ms % 10 == 5 && up(ms)
    ensures 10 * Hundredths(ms, up) - ms == -5 ==> ms % 10 == 5 && !up(ms)
  {
    var r := ms % 60_000;
    assert ms == ms / 3_600_000 * 3_600_000 + ms % 3_600_000 / 60_000 * 60_000 + r by {
      assert ms % 3_600_000 % 60_000 == r;
    }
    assert ms % 10 == r % 10;
  }

  /** The printed time is within 5 ms of the cue, and later cues never print earlier times. */
  lemma AssTimesFaithful(ms: nat, later: nat, up: Ties)
    requires ms <= later
    ensures AssShaped(AssText(ms, up)) && AssShaped(AssText(later, up))
    ensures -5 <= 10 * ReadAss(AssText(ms, up)) - ms <= 5
    ensures ReadAss(AssText(ms, up)) <= ReadAss(AssText(later, up))
  {
    AssReadsBack(ms, up);
    AssReadsBack(later, up);
    HundredthsNear(ms, up);
    HundredthsNear(later, up);
  }

  /** The seconds are rounded without carrying into the minutes, so the field shows 60.00 exactly in
      the last 5 ms of a minute. */
  lemma SixtySecondsIff(ms: nat, up: Ties)
    ensures SecondsField(ms, up) == 6000 <==> ms % 60_000 > 59_995 || (ms % 60_000 == 59_995 && up(ms))
  {
  }

  /** A cue at 59.996 s is printed at 60.00 seconds of minute 0. */
  lemma SixtySecondsExample(ms: nat, up: Ties)
    requires ms == 59_996
    ensures AssText(ms, up) == AssOf("0", "00", "60", "00")
  {
    var h, m, c := ms / 3_600_000, ms % 3_600_000 / 60_000, SecondsField(ms, up);
    assert h == 0 && m == 0 && c == 6000;
    SmallTexts(h, m, c / 100, c % 100);
  }

  lemma SmallTexts(h: nat, m: nat, s: nat, c: nat)
    requires h == 0 && m == 0 && s == 60 && c == 0
    ensures NatText(h) == "0" && Padded(m, 2) == "00" && Padded(s, 2) == "60" && Padded(c, 2) == "00"
  {
    assert Padded(0, 1) == "0" && Padded(6, 1) == "6";
  }
}
