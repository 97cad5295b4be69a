/**
 Daily pipeline rollups: the bucket helper, the table of migration 026, the atomic replacement
 of one (family, day) unit, and the backfill that drives it. Instants count microseconds, UTC.
 */
module Rollups {
  import opened Wrappers
  import opened Text

  const DAY := 86_400_000_000

  // ---- Complete UTC days of a range ----

  datatype Span = Span(start: int, end: int)

  function DayStart(t: int): (d: int)
    ensures d % DAY == 0 && d <= t < d + DAY
  {
    t - t % DAY
  }

  predicate WholeDay(s: Span) {
    s.start % DAY == 0 && s.end == s.start + DAY
  }

  /** The days from the midnight cur on that end by the given instant. */
  function DaysUntil(cur: int, end: int): (days: seq<Span>)
    decreases end - cur
  {
    if cur + DAY <= end then [Span(cur, cur + DAY)] + DaysUntil(cur + DAY, end) else []
  }

  lemma {:induction false} DaysUntilTile(cur: int, end: int)
    requires cur % DAY == 0
    ensures var days := DaysUntil(cur, end);
            && (forall i | 0 <= i < |days| :: WholeDay(days[i]) && days[i].start == cur + i * DAY && days[i].end <= end)
            && (cur <= end ==> 0 <= end - (cur + |days| * DAY) < DAY)
            && (cur > end ==> days == [])
    decreases end - cur
  {
    if cur + DAY <= end {
      DaysUntilTile(cur + DAY, end);
      var days, rest := DaysUntil(cur, end), DaysUntil(cur + DAY, end);
      forall i | 0 < i < |days| ensures days[i] == rest[i - 1] {
      }
    }
  }

  function FirstMidnight(t: int): (d: int) {
    if DayStart(t) < t then DayStart(t) + DAY else DayStart(t)
  }

  function DailyBucketsOf(start: int, end: int): (days: seq<Span>) {
    if start >= end then [] else DaysUntil(FirstMidnight(start), end)
  }

  /** The buckets are, once each and in order, exactly the whole UTC days inside the range. */
  lemma BucketsAreTheWholeDays(start: int, end: int, day: Span)
    ensures day in DailyBucketsOf(start, end) <==>
            day.start % 86_400_000_000 == 0 && day.end - day.start == 86_400_000_000 && start <= day.start && day.end <= end
    ensures var days := DailyBucketsOf(start, end);
            forall i, j | 0 <= i < j < |days| :: days[i].end <= days[j].start
  {
    if start < end {
      var cur := FirstMidnight(start);
      var days := DaysUntil(cur, end);
      DaysUntilTile(cur, end);
      forall i, j | 0 <= i < j < |days| ensures days[i].end <= days[j].start {
        assert days[i].start == cur + i * DAY && days[j].start == cur + j * DAY;
      }
      if WholeDay(day) && start <= day.start && day.end <= end {
        var i := (day.start - cur) / DAY;
        assert day.start == cur + i * DAY;
        assert 0 <= i < |days| && days[i] == day;
      }
    }
  }

  lemma BucketsExactly(start: int, end: int)
    ensures forall day :: day in DailyBucketsOf(start, end) <==> WholeDay(day) && start <= day.start && day.end <= end
  {
    forall day ensures day in DailyBucketsOf(start, end) <==> WholeDay(day) && start <= day.start && day.end <= end {
      BucketsAreTheWholeDays(start, end, day);
    }
  }

  /** One more day found by the loop that lists them. */
  lemma DaysOneMore(found: seq<Span>, cur: int, end: int)
    requires cur + DAY <= end
    ensures found + DaysUntil(cur, end) == (found + [Span(cur, cur + DAY)]) + DaysUntil(cur + DAY, end)
  {
  }

  method DailyBuckets(start: int, end: int) returns (buckets: seq<Span>)
    ensures buckets == DailyBucketsOf(start, end)
    ensures forall day :: day in buckets <==> WholeDay(day) && start <= day.start && day.end <= end
  {
    BucketsExactly(start, end);
    if start >= end {
      return [];
    }
    var cur := DayStart(start);
    if cur < start {
      cur := cur + DAY;
    }
    buckets := [];
    ghost var all := DaysUntil(cur, end);
    while cur + DAY <= end
      invariant all == buckets + DaysUntil(cur, end)
      decreases end - cur
    {
      DaysOneMore(buckets, cur, end);
      buckets := buckets + [Span(cur, cur + DAY)];
      cur := cur + DAY;
    }
  }

  // ---- The rollup table ----

  /** The text of each column; a family given on the command line can be any text. */
  datatype Family = RenderReliability | RenderPerformance | SchedulerReliability | QaQuality | UnknownFamily(name: string)
  datatype Dimension = Global | Channel | VideoCodec | ScheduleTargetType

  datatype Key = Key(family: Family, dimension: Dimension, value: string, start: int)
  /** The metrics payload is an opaque number here. */
  datatype Row = Row(end: int, metrics: int, samples: int, schemaVersion: int)
  type Table = map<Key, Row>

  const FAMILIES := [RenderReliability, RenderPerformance, SchedulerReliability, QaQuality]
  const CODECS := ["h264", "hevc", "vp9", "libx264"]
  const TARGET_TYPES := ["STANDALONE_MISSION", "CAMPAIGN_ADMISSION"]

  predicate RenderFamily(family: Family) {
    family == RenderReliability || family == RenderPerformance
  }

  /** chk_rollup_family_dimension_matrix, with the two value lists it implies. */
  predicate Matrix(family: Family, dimension: Dimension) {
    || (RenderFamily(family) && dimension in [Global, Channel, VideoCodec])
    || (family == SchedulerReliability && dimension in [Global, ScheduleTargetType])
    || (family == QaQuality && dimension in [Global, Channel])
  }

  predicate RowOk(k: Key, r: Row) {
    && WholeDay(Span(k.start, r.end))
    && r.samples >= 0 && r.schemaVersion > 0
    && Matrix(k.family, k.dimension)
  }

  /** The checks of the table, written out. */
  lemma RowOkIff(k: Key, r: Row)
    ensures RowOk(k, r) <==>
            && k.start % 86_400_000_000 == 0 && r.end - k.start == 86_400_000_000
            && r.samples >= 0 && r.schemaVersion >= 1
            && match k.dimension
               case Global => !k.family.UnknownFamily?
               case Channel => k.family == RenderReliability || k.family == RenderPerformance || k.family == QaQuality
               case VideoCodec => k.family == RenderReliability || k.family == RenderPerformance
               case ScheduleTargetType => k.family == SchedulerReliability
  {
  }

  ghost predicate TableOk(t: Table) {
    forall k <- t :: RowOk(k, t[k])
  }

  ghost predicate SameSeries(j: Key, k: Key) {
    j.family == k.family && j.dimension == k.dimension && j.value == k.value
  }

  /** Rows of one series cover disjoint days, so an instant belongs to at most one of them. */
  lemma SeriesDaysDisjoint(t: Table, j: Key, k: Key, instant: int)
    requires TableOk(t) && j in t && k in t && SameSeries(j, k)
    requires j.start <= instant < t[j].end && k.start <= instant < t[k].end
    ensures j == k
  {
    assert RowOk(j, t[j]) && RowOk(k, t[k]);
  }

  // ---- One unit: the snapshot of a family on a day ----

  datatype Measure = Measure(metrics: int, samples: nat)

  /** The source rows a recomputation reads: channel ids, distinct codecs, and the measurements. */
  datatype Facts = Facts(channels: seq<Uuid>, codecs: seq<string>, measure: (Key, int) -> Measure)

  ghost predicate FactsOk(f: Facts) {
    && (forall c <- f.channels :: c.Valid())
    && (forall i, j | 0 <= i < j < |f.channels| :: f.channels[i] != f.channels[j])
    && (forall i, j | 0 <= i < j < |f.codecs| :: f.codecs[i] != f.codecs[j])
  }

  datatype Unit = Unit(family: Family, day: Span)

  function ChannelDimensions(channels: seq<Uuid>): (r: seq<(Dimension, string)>)
    requires forall c <- channels :: c.Valid()
    ensures |r| == |channels|
    ensures forall i | 0 <= i < |r| :: r[i] == (Channel, channels[i].Text())
  {
    seq(|channels|, i requires 0 <= i < |channels| => (Channel, channels[i].Text()))
  }

  function Normalized(codec: string): string {
    Strip(Lower(codec))
  }

  /** Empty codecs are passed over; the others appear lower-cased and stripped. */
  function CodecDimensions(codecs: seq<string>): (r: seq<(Dimension, string)>) {
    if codecs == [] then []
    else (if codecs[0] == "" then [] else [(VideoCodec, Normalized(codecs[0]))]) + CodecDimensions(codecs[1..])
  }

  function ChannelPart(f: Facts, family: Family): (r: seq<(Dimension, string)>)
    requires forall c <- f.channels :: c.Valid()
  {
    if RenderFamily(family) || family == QaQuality then ChannelDimensions(f.channels) else []
  }

  function CodecPart(f: Facts, family: Family): (r: seq<(Dimension, string)>) {
    if RenderFamily(family) then CodecDimensions(f.codecs) else []
  }

  function TargetPart(family: Family): (r: seq<(Dimension, string)>) {
    if family == SchedulerReliability
    then [(ScheduleTargetType, "STANDALONE_MISSION"), (ScheduleTargetType, "CAMPAIGN_ADMISSION")] else []
  }

  function Dimensions(f: Facts, family: Family): (r: seq<(Dimension, string)>)
    requires forall c <- f.channels :: c.Valid()
  {
    [(Global, "ALL")] + ChannelPart(f, family) + CodecPart(f, family) + TargetPart(family)
  }

  /** validate_family_and_dimension on the dimensions the service produces; a channel value is the
      text of a UUID and so always parses. */
  predicate DimensionOk(family: Family, d: (Dimension, string)) {
    && Matrix(family, d.0)
    && (d.0 == Global ==> d.1 == "ALL")
    && (d.0 == VideoCodec ==> Normalized(d.1) in CODECS)
    && (d.0 == ScheduleTargetType ==> d.1 in TARGET_TYPES)
  }

  function KeyOf(u: Unit, d: (Dimension, string)): Key {
    Key(u.family, d.0, d.1, u.day.start)
  }

  function RowOf(f: Facts, u: Unit, d: (Dimension, string)): Row {
    var m := f.measure(KeyOf(u, d), u.day.end);
    Row(u.day.end, m.metrics, m.samples, 1)
  }

  /** Whether computing the snapshot raises. */
  predicate Computes(f: Facts, u: Unit)
    requires forall c <- f.channels :: c.Valid()
  {
    forall d <- Dimensions(f, u.family) :: DimensionOk(u.family, d)
  }

  predicate OfUnit(k: Key, u: Unit) {
    k.family == u.family && k.start == u.day.start
  }

  function Purge(t: Table, u: Unit): (r: Table) {
    map k <- t | !OfUnit(k, u) :: t[k]
  }

  /** Insert one row per dimension; None is a unique or check violation. */
  function InsertAll(t: Table, f: Facts, u: Unit, ds: seq<(Dimension, string)>): (r: Option<Table>)
    decreases |ds|
  {
    if ds == [] then Some(t)
    else
      var k, row := KeyOf(u, ds[0]), RowOf(f, u, ds[0]);
      if k in t || !RowOk(k, row) then None else InsertAll(t[k := row], f, u, ds[1..])
  }

  /** Recompute and replace one unit in a transaction: None means it raised and rolled back. */
  function Replaced(t: Table, f: Facts, u: Unit): (r: Option<Table>)
    requires forall c <- f.channels :: c.Valid()
  {
    if Computes(f, u) then InsertAll(Purge(t, u), f, u, Dimensions(f, u.family)) else None
  }

  // ---- When a unit succeeds ----

  ghost predicate DistinctDimensions(ds: seq<(Dimension, string)>) {
    forall i, j | 0 <= i < j < |ds| :: ds[i] != ds[j]
  }

  lemma {:induction false} InsertAllExact(t: Table, f: Facts, u: Unit, ds: seq<(Dimension, string)>)
    requires WholeDay(u.day) && forall d <- ds :: Matrix(u.family, d.0)
    ensures var r := InsertAll(t, f, u, ds);
            && (r.Some? <==> DistinctDimensions(ds) && forall d <- ds :: KeyOf(u, d) !in t)
            && (r.Some? ==>
                  && (forall k :: k in r.value <==> k in t || exists d <- ds :: k == KeyOf(u, d))
                  && (forall k <- t :: r.value[k] == t[k])
                  && (forall d <- ds :: r.value[KeyOf(u, d)] == RowOf(f, u, d)))
    decreases |ds|
  {
    if ds != [] {
      var k, row := KeyOf(u, ds[0]), RowOf(f, u, ds[0]);
      assert ds[0] in ds && RowOk(k, row);
      if k !in t {
        InsertAllExact(t[k := row], f, u, ds[1..]);
      }
    }
  }

  lemma {:induction false} InsertAllSize(t: Table, f: Facts, u: Unit, ds: seq<(Dimension, string)>, r: Table)
    requires InsertAll(t, f, u, ds) == Some(r)
    ensures |r| == |t| + |ds|
    decreases |ds|
  {
    if ds != [] {
      InsertAllSize(t[KeyOf(u, ds[0]) := RowOf(f, u, ds[0])], f, u, ds[1..], r);
    }
  }

  lemma DistinctConcat(a: seq<(Dimension, string)>, b: seq<(Dimension, string)>)
    ensures DistinctDimensions(a + b) <==>
            && DistinctDimensions(a) && DistinctDimensions(b)
            && forall x <- a :: x !in b
  {
    if DistinctDimensions(a + b) {
      forall i, j | 0 <= i < j < |a| ensures a[i] != a[j] {
        assert (a + b)[i] != (a + b)[j];
      }
      forall i, j | 0 <= i < j < |b| ensures b[i] != b[j] {
        assert (a + b)[|a| + i] != (a + b)[|a| + j];
      }
      forall x <- a ensures x !in b {
        var i :| 0 <= i < |a| && a[i] == x;
        forall j | 0 <= j < |b| ensures b[j] != x {
          assert (a + b)[i] != (a + b)[|a| + j];
        }
      }
    }
    if DistinctDimensions(a) && DistinctDimensions(b) && forall x <- a :: x !in b {
      forall i, j | 0 <= i < j < |a + b| ensures (a + b)[i] != (a + b)[j] {
        if i < |a| <= j {
          assert a[i] in a && b[j - |a|] in b;
        }
      }
    }
  }

  lemma ChannelDimensionsDistinct(channels: seq<Uuid>)
    requires forall c <- channels :: c.Valid()
    requires forall i, j | 0 <= i < j < |channels| :: channels[i] != channels[j]
    ensures DistinctDimensions(ChannelDimensions(channels))
  {
    forall i, j | 0 <= i < j < |channels| ensures ChannelDimensions(channels)[i] != ChannelDimensions(channels)[j] {
      if channels[i].Text() == channels[j].Text() {
        UuidTextInjective(channels[i], channels[j]);
      }
    }
  }

  /** Some codec has another spelling of an earlier one. */
  predicate RepeatsSpelling(codecs: seq<string>) {
    exists i, j | 0 <= i < j < |codecs| ::
      codecs[i] != "" && codecs[j] != "" && Normalized(codecs[i]) == Normalized(codecs[j])
  }

  lemma {:induction false} CodecDimensionsHave(codecs: seq<string>, d: (Dimension, string))
    ensures d in CodecDimensions(codecs) <==>
            exists i | 0 <= i < |codecs| :: codecs[i] != "" && d == (VideoCodec, Normalized(codecs[i]))
  {
    if codecs != [] {
      CodecDimensionsHave(codecs[1..], d);
      if d in CodecDimensions(codecs[1..]) {
        var i :| 0 <= i < |codecs[1..]| && codecs[1..][i] != "" && d == (VideoCodec, Normalized(codecs[1..][i]));
        assert codecs[i + 1] == codecs[1..][i];
      }
      if i :| 0 <= i < |codecs| && codecs[i] != "" && d == (VideoCodec, Normalized(codecs[i])) {
        if i > 0 {
          assert codecs[1..][i - 1] == codecs[i];
        }
      }
    }
  }

  /** A later codec has the spelling of the first one. */
  predicate RepeatsFirst(codecs: seq<string>)
    requires codecs != []
  {
    codecs[0] != "" && exists i | 0 < i < |codecs| :: codecs[i] != "" && Normalized(codecs[0]) == Normalized(codecs[i])
  }

  lemma RepeatsSpellingSplit(codecs: seq<string>)
    requires codecs != []
    ensures RepeatsSpelling(codecs) <==> RepeatsFirst(codecs) || RepeatsSpelling(codecs[1..])
  {
    var rest := codecs[1..];
    if RepeatsSpelling(rest) {
      var i, j :| 0 <= i < j < |rest| && rest[i] != "" && rest[j] != "" && Normalized(rest[i]) == Normalized(rest[j]);
      assert codecs[i + 1] == rest[i] && codecs[j + 1] == rest[j];
    }
    if RepeatsSpelling(codecs) && !RepeatsFirst(codecs) {
      var i, j :| 0 <= i < j < |codecs| && codecs[i] != "" && codecs[j] != "" && Normalized(codecs[i]) == Normalized(codecs[j]);
      assert codecs[i] == rest[i - 1] && codecs[j] == rest[j - 1];
    }
  }

  lemma FirstRepeats(codecs: seq<string>)
    requires codecs != [] && codecs[0] != ""
    ensures (VideoCodec, Normalized(codecs[0])) in CodecDimensions(codecs[1..]) <==> RepeatsFirst(codecs)
  {
    var rest, d := codecs[1..], (VideoCodec, Normalized(codecs[0]));
    CodecDimensionsHave(rest, d);
    if RepeatsFirst(codecs) {
      var i :| 0 < i < |codecs| && codecs[i] != "" && Normalized(codecs[0]) == Normalized(codecs[i]);
      assert rest[i - 1] == codecs[i];
    }
  }

  lemma {:induction false} CodecDimensionsDistinct(codecs: seq<string>)
    ensures DistinctDimensions(CodecDimensions(codecs)) <==> !RepeatsSpelling(codecs)
  {
    if codecs != [] {
      var head := if codecs[0] == "" then [] else [(VideoCodec, Normalized(codecs[0]))];
      CodecDimensionsDistinct(codecs[1..]);
      RepeatsSpellingSplit(codecs);
      DistinctConcat(head, CodecDimensions(codecs[1..]));
      if codecs[0] != "" {
        FirstRepeats(codecs);
      }
    }
  }

  predicate AllOf(ds: seq<(Dimension, string)>, kind: Dimension) {
    forall d <- ds :: d.0 == kind
  }

  lemma KindsApart(a: seq<(Dimension, string)>, b: seq<(Dimension, string)>, c: seq<(Dimension, string)>,
                   d: seq<(Dimension, string)>)
    requires AllOf(a, Global) && AllOf(b, Channel) && AllOf(c, VideoCodec) && AllOf(d, ScheduleTargetType)
    ensures DistinctDimensions(a + b + c + d) <==>
            DistinctDimensions(a) && DistinctDimensions(b) && DistinctDimensions(c) && DistinctDimensions(d)
  {
    DistinctConcat(a, b);
    DistinctConcat(a + b, c);
    DistinctConcat(a + b + c, d);
  }

  lemma CodecPartDistinct(f: Facts, family: Family)
    ensures AllOf(CodecPart(f, family), VideoCodec)
    ensures DistinctDimensions(CodecPart(f, family)) <==> (RenderFamily(family) ==> !RepeatsSpelling(f.codecs))
  {
    CodecDimensionsDistinct(f.codecs);
    forall x <- CodecPart(f, family) ensures x.0 == VideoCodec {
      CodecDimensionsHave(f.codecs, x);
    }
  }

  lemma DimensionsDistinct(f: Facts, family: Family)
    requires FactsOk(f)
    ensures DistinctDimensions(Dimensions(f, family)) <==> (RenderFamily(family) ==> !RepeatsSpelling(f.codecs))
  {
    ChannelDimensionsDistinct(f.channels);
    CodecPartDistinct(f, family);
    KindsApart([(Global, "ALL")], ChannelPart(f, family), CodecPart(f, family), TargetPart(family));
  }

  predicate LowerCased(s: string) { forall i | 0 <= i < |s| :: LowerChar(s[i]) == s[i] }

  lemma {:induction false} LowerKeeps(s: string)
    requires LowerCased(s)
    ensures Lower(s) == s
  {
    if s != "" {
      LowerKeeps(s[1..]);
    }
  }

  /** Validating a normalised codec again changes nothing. */
  lemma NormalizedIdempotent(codec: string)
    ensures Normalized(Normalized(codec)) == Normalized(codec)
  {
    var s := Lower(codec);
    LowerChars(codec);
    StripLeftIsSuffix(s);
    var t := StripLeft(s);
    StripRightIsPrefix(t);
    var r := StripRight(t);
    assert LowerCased(r);
    LowerKeeps(r);
    if r != "" {
      assert r[0] == t[0];
    }
  }

  predicate SupportedCodecs(codecs: seq<string>) {
    forall c <- codecs | c != "" :: Strip(Lower(c)) in ["h264", "hevc", "vp9", "libx264"]
  }

  /** What the snapshot of a unit needs: a known family and, for a render family, codecs that are
      supported and keep apart once lower-cased and stripped. */
  predicate Sound(f: Facts, family: Family) {
    && !family.UnknownFamily?
    && (RenderFamily(family) ==> SupportedCodecs(f.codecs) && !RepeatsSpelling(f.codecs))
  }

  predicate AllOk(family: Family, ds: seq<(Dimension, string)>) {
    forall d <- ds :: DimensionOk(family, d)
  }

  lemma AllOkJoin(family: Family, a: seq<(Dimension, string)>, b: seq<(Dimension, string)>)
    ensures AllOk(family, a + b) <==> AllOk(family, a) && AllOk(family, b)
  {
    if AllOk(family, a + b) {
      forall d <- a ensures DimensionOk(family, d) { assert d in a + b; }
      forall d <- b ensures DimensionOk(family, d) { assert d in a + b; }
    }
  }

  lemma CodecOkIff(family: Family, codec: string)
    requires RenderFamily(family)
    ensures DimensionOk(family, (VideoCodec, Normalized(codec))) <==> Normalized(codec) in CODECS
  {
    NormalizedIdempotent(codec);
  }

  lemma {:induction false} CodecsOkIff(family: Family, codecs: seq<string>)
    requires RenderFamily(family)
    ensures AllOk(family, CodecDimensions(codecs)) <==> SupportedCodecs(codecs)
  {
    if codecs != [] {
      CodecsOkIff(family, codecs[1..]);
      assert codecs == [codecs[0]] + codecs[1..];
      if codecs[0] != "" {
        CodecOkIff(family, codecs[0]);
        AllOkJoin(family, [(VideoCodec, Normalized(codecs[0]))], CodecDimensions(codecs[1..]));
      } else {
        AllOkJoin(family, [], CodecDimensions(codecs[1..]));
      }
    }
  }

  lemma ComputesIff(f: Facts, u: Unit)
    requires FactsOk(f)
    ensures Computes(f, u) <==> u.family in FAMILIES && (RenderFamily(u.family) ==> SupportedCodecs(f.codecs))
  {
    var head: seq<(Dimension, string)> := [(Global, "ALL")];
    var channels, codecs, targets := ChannelPart(f, u.family), CodecPart(f, u.family), TargetPart(u.family);
    assert Computes(f, u) == AllOk(u.family, Dimensions(f, u.family));
    AllOkJoin(u.family, head + channels + codecs, targets);
    AllOkJoin(u.family, head + channels, codecs);
    AllOkJoin(u.family, head, channels);
    assert AllOk(u.family, head) <==> u.family in FAMILIES by {
      assert head[0] in head;
    }
    assert AllOk(u.family, channels) && AllOk(u.family, targets);
    if RenderFamily(u.family) {
      CodecsOkIff(u.family, f.codecs);
    }
  }

  /** The rows a unit consists of after its replacement. */
  ghost function UnitRows(f: Facts, u: Unit): (r: Table)
    requires FactsOk(f)
  {
    map k | k in (set d <- Dimensions(f, u.family) :: KeyOf(u, d)) :: RowOf(f, u, (k.dimension, k.value))
  }

  function Get(t: Table, k: Key): Option<Row> {
    if k in t then Some(t[k]) else None
  }

  lemma SameLookups(a: Table, b: Table)
    requires forall k: Key :: Get(a, k) == Get(b, k)
    ensures a == b
  {
    forall k ensures k in a <==> k in b {
      assert Get(a, k) == Get(b, k);
    }
    forall k <- a ensures a[k] == b[k] {
      assert Get(a, k) == Get(b, k);
    }
  }

  lemma UnitRowsHave(f: Facts, u: Unit, k: Key)
    requires FactsOk(f)
    ensures k in UnitRows(f, u) <==> exists d <- Dimensions(f, u.family) :: k == KeyOf(u, d)
    ensures k in UnitRows(f, u) ==>
              OfUnit(k, u) && UnitRows(f, u)[k] == RowOf(f, u, (k.dimension, k.value))
  {
  }

  /** The keys of a family's snapshot of a day: always GLOBAL; each channel except for the scheduler;
      each spelling-normalised codec for the two render families; the two target types for the scheduler. */
  ghost predicate InSnapshot(f: Facts, u: Unit, k: Key)
    requires FactsOk(f)
  {
    && k.family == u.family && k.start == u.day.start
    && match k.dimension
       case Global => k.value == "ALL"
       case Channel =>
         && (u.family == RenderReliability || u.family == RenderPerformance || u.family == QaQuality)
         && exists c <- f.channels :: k.value == c.Text()
       case VideoCodec =>
         && (u.family == RenderReliability || u.family == RenderPerformance)
         && exists c <- f.codecs | c != "" :: k.value == Strip(Lower(c))
       case ScheduleTargetType =>
         u.family == SchedulerReliability && (k.value == "STANDALONE_MISSION" || k.value == "CAMPAIGN_ADMISSION")
  }

  /** The row that the snapshot of a unit has under a key. */
  ghost function Measured(f: Facts, u: Unit, k: Key): Option<Row>
    requires FactsOk(f)
  {
    if InSnapshot(f, u, k)
    then Some(Row(u.day.end, f.measure(k, u.day.end).metrics, f.measure(k, u.day.end).samples, 1)) else None
  }

  lemma ChannelPartHas(f: Facts, family: Family, d: (Dimension, string))
    requires FactsOk(f)
    ensures d in ChannelPart(f, family) <==>
            && (family == RenderReliability || family == RenderPerformance || family == QaQuality)
            && d.0 == Channel && exists c <- f.channels :: d.1 == c.Text()
  {
    if c :| c in f.channels && d == (Channel, c.Text()) {
      var i :| 0 <= i < |f.channels| && f.channels[i] == c;
      assert ChannelDimensions(f.channels)[i] == d;
    }
  }

  lemma CodecPartHas(f: Facts, family: Family, d: (Dimension, string))
    ensures d in CodecPart(f, family) <==>
            && (family == RenderReliability || family == RenderPerformance)
            && d.0 == VideoCodec && exists c <- f.codecs | c != "" :: d.1 == Strip(Lower(c))
  {
    CodecDimensionsHave(f.codecs, d);
    if c :| c in f.codecs && c != "" && d == (VideoCodec, Normalized(c)) {
      var i :| 0 <= i < |f.codecs| && f.codecs[i] == c;
    }
  }

  /** What a unit consists of: exactly the keys of its snapshot, each with what was measured for it. */
  lemma UnitRowsExact(f: Facts, u: Unit, k: Key)
    requires FactsOk(f)
    ensures Get(UnitRows(f, u), k) == Measured(f, u, k)
  {
    var d := (k.dimension, k.value);
    UnitRowsHave(f, u, k);
    ChannelPartHas(f, u.family, d);
    CodecPartHas(f, u.family, d);
    assert d in Dimensions(f, u.family) ==> KeyOf(u, d) == Key(u.family, k.dimension, k.value, u.day.start);
  }

  lemma InsertedIntoPurged(t: Table, f: Facts, u: Unit, r: Table)
    requires FactsOk(f)
    requires var ds := Dimensions(f, u.family);
             && (forall k :: k in r <==> k in t || exists d <- ds :: k == KeyOf(u, d))
             && (forall k <- t :: r[k] == t[k])
             && (forall d <- ds :: r[KeyOf(u, d)] == RowOf(f, u, d))
    requires forall k <- t :: !OfUnit(k, u)
    ensures r == t + UnitRows(f, u)
  {
    forall k: Key ensures Get(r, k) == Get(t + UnitRows(f, u), k) {
      UnitRowsHave(f, u, k);
    }
    SameLookups(r, t + UnitRows(f, u));
  }

  /** A replacement succeeds exactly on sound facts, whatever the table holds, and then leaves
      the unit's new rows and every row of every other unit. */
  lemma ReplacedExact(t: Table, f: Facts, u: Unit)
    requires FactsOk(f) && WholeDay(u.day)
    ensures Replaced(t, f, u).Some? <==> Sound(f, u.family)
    ensures Sound(f, u.family) ==> Replaced(t, f, u).value == Purge(t, u) + UnitRows(f, u)
  {
    ComputesIff(f, u);
    if Computes(f, u) {
      MatrixOfUnit(f, u);
      DimensionsDistinct(f, u.family);
      InsertAllExact(Purge(t, u), f, u, Dimensions(f, u.family));
      if Sound(f, u.family) {
        InsertedIntoPurged(Purge(t, u), f, u, Replaced(t, f, u).value);
      }
    }
  }

  /** Key by key: after a replacement the unit holds exactly its snapshot, and every other row is kept. */
  lemma ReplacedRows(t: Table, f: Facts, u: Unit, k: Key)
    requires FactsOk(f) && WholeDay(u.day) && Replaced(t, f, u).Some?
    ensures Get(Replaced(t, f, u).value, k) ==
            if k.family != u.family || k.start != u.day.start then Get(t, k)
            else Measured(f, u, k)
  {
    ReplacedExact(t, f, u);
    UnitRowsExact(f, u, k);
  }

  /** Two spellings of one supported codec: the unit cannot be replaced, whatever the table holds. */
  lemma TwoSpellingsFail(t: Table, f: Facts, u: Unit)
    requires FactsOk(f) && WholeDay(u.day) && u.family == RenderReliability && f.codecs == ["h264", "H264"]
    ensures Computes(f, u) && Replaced(t, f, u) == None
  {
    LowerChars("h264");
    LowerChars("H264");
    assert Lower("h264") == "h264" == Lower("H264");
    assert Normalized(f.codecs[0]) == "h264" == Normalized(f.codecs[1]) by {
      assert StripLeft("h264") == "h264" == StripRight("h264");
    }
    ComputesIff(f, u);
    ReplacedExact(t, f, u);
  }

  lemma MatrixOfUnit(f: Facts, u: Unit)
    requires FactsOk(f) && Computes(f, u)
    ensures forall d <- Dimensions(f, u.family) :: Matrix(u.family, d.0)
  {
    forall d <- Dimensions(f, u.family) ensures Matrix(u.family, d.0) {
      assert DimensionOk(u.family, d);
    }
  }

  /** One row per dimension. */
  lemma UnitSize(f: Facts, u: Unit)
    requires FactsOk(f) && WholeDay(u.day) && Sound(f, u.family)
    ensures |UnitRows(f, u)| == |Dimensions(f, u.family)|
  {
    assert Purge(map[], u) == map[] && map[] + UnitRows(f, u) == UnitRows(f, u);
    assert InsertAll(map[], f, u, Dimensions(f, u.family)) == Some(UnitRows(f, u)) by {
      ReplacedExact(map[], f, u);
    }
    InsertAllSize(map[], f, u, Dimensions(f, u.family), UnitRows(f, u));
  }

  // ---- Runs of units ----

  /** The units before the first one that fails. */
  function SoundPrefix(f: Facts, units: seq<Unit>): (r: seq<Unit>)
    ensures |r| <= |units| && r == units[..|r|]
    ensures forall u <- r :: Sound(f, u.family)
  {
    if units == [] || !Sound(f, units[0].family) then [] else [units[0]] + SoundPrefix(f, units[1..])
  }

  /** Replace the units in order; each replacement commits on its own. */
  ghost function Apply(t: Table, f: Facts, units: seq<Unit>): (r: Table)
    requires FactsOk(f)
  {
    if units == [] then t
    else
      var u := units[|units| - 1];
      Purge(Apply(t, f, units[..|units| - 1]), u) + UnitRows(f, u)
  }

  function CoverOf(units: seq<Unit>, k: Key): (r: Option<Unit>)
    ensures r.Some? ==> r.value in units && OfUnit(k, r.value)
    ensures r.None? ==> forall u <- units :: !OfUnit(k, u)
  {
    if units == [] then None
    else if OfUnit(k, units[|units| - 1]) then Some(units[|units| - 1])
    else CoverOf(units[..|units| - 1], k)
  }

  /** Row by row: a covered key holds the fresh row of its unit, any other key is untouched. */
  lemma {:induction false} ApplyLookup(t: Table, f: Facts, units: seq<Unit>, k: Key)
    requires FactsOk(f)
    ensures Get(Apply(t, f, units), k) ==
            match CoverOf(units, k)
            case None => Get(t, k)
            case Some(u) => Get(UnitRows(f, u), k)
  {
    if units != [] {
      ApplyLookup(t, f, units[..|units| - 1], k);
      var u := units[|units| - 1];
      if !OfUnit(k, u) {
        assert k !in UnitRows(f, u);
      }
    }
  }

  ghost predicate WholeUnits(units: seq<Unit>) {
    forall u <- units :: WholeDay(u.day)
  }

  lemma SameUnit(k: Key, u: Unit, v: Unit)
    requires OfUnit(k, u) && OfUnit(k, v) && WholeDay(u.day) && WholeDay(v.day)
    ensures u == v
  {
  }

  /** A run of some of the units followed by a run of all of them is one run of all of them. */
  lemma RerunAbsorbs(t: Table, f: Facts, some: seq<Unit>, all: seq<Unit>)
    requires FactsOk(f) && WholeUnits(all) && forall u <- some :: u in all
    ensures Apply(Apply(t, f, some), f, all) == Apply(t, f, all)
  {
    var left, right := Apply(Apply(t, f, some), f, all), Apply(t, f, all);
    forall k: Key ensures Get(left, k) == Get(right, k) {
      ApplyLookup(Apply(t, f, some), f, all, k);
      ApplyLookup(t, f, all, k);
      ApplyLookup(t, f, some, k);
    }
    SameLookups(left, right);
  }

  /** The table after runs that were each stopped after some number of units. */
  ghost function Interrupted(t: Table, f: Facts, units: seq<Unit>, stops: seq<nat>): (r: Table)
    requires FactsOk(f)
    decreases |stops|
  {
    if stops == [] then t
    else
      var n := if stops[0] < |units| then stops[0] else |units|;
      Interrupted(Apply(t, f, SoundPrefix(f, units[..n])), f, units, stops[1..])
  }

  lemma {:induction false} SoundPrefixGrows(f: Facts, units: seq<Unit>, n: nat)
    requires n <= |units|
    ensures forall u <- SoundPrefix(f, units[..n]) :: u in SoundPrefix(f, units)
  {
    if n > 0 && Sound(f, units[0].family) {
      assert units[..n][1..] == units[1..][..n - 1];
      SoundPrefixGrows(f, units[1..], n - 1);
    }
  }

  /** Safe to restart or rerun anytime: with unchanged facts, any number of runs stopped anywhere,
      by a crash or by a failing unit, followed by one full run, gives the table of one clean run. */
  lemma {:induction false} RestartConverges(t: Table, f: Facts, units: seq<Unit>, stops: seq<nat>)
    requires FactsOk(f) && WholeUnits(units)
    ensures Apply(Interrupted(t, f, units, stops), f, SoundPrefix(f, units)) == Apply(t, f, SoundPrefix(f, units))
    decreases |stops|
  {
    if stops != [] {
      var n := if stops[0] < |units| then stops[0] else |units|;
      var once := Apply(t, f, SoundPrefix(f, units[..n]));
      SoundPrefixGrows(f, units, n);
      RestartConverges(once, f, units, stops[1..]);
      RerunAbsorbs(t, f, SoundPrefix(f, units[..n]), SoundPrefix(f, units));
    }
  }

  // ---- What a complete run counts ----

  function CoveredKeys(t: Table, units: seq<Unit>): (r: set<Key>) {
    set k <- t | CoverOf(units, k).Some?
  }

  function TotalRows(f: Facts, units: seq<Unit>): (n: nat)
    requires forall c <- f.channels :: c.Valid()
  {
    if units == [] then 0
    else TotalRows(f, units[..|units| - 1]) + |Dimensions(f, units[|units| - 1].family)|
  }

  lemma FreshUnitIsDisjoint(before: Table, units: seq<Unit>, k: Key)
    requires |units| > 0 && WholeUnits(units)
    requires forall i, j | 0 <= i < j < |units| :: units[i] != units[j]
    requires k in CoveredKeys(before, units[..|units| - 1])
    ensures !OfUnit(k, units[|units| - 1])
  {
    var n := |units| - 1;
    var v := CoverOf(units[..n], k).value;
    var i :| 0 <= i < n && units[..n][i] == v;
    assert units[i] in units && units[n] in units;
    if OfUnit(k, units[n]) {
      SameUnit(k, units[n], v);
    }
  }

  lemma OneMoreUnitCovers(before: Table, f: Facts, units: seq<Unit>)
    requires FactsOk(f) && |units| > 0 && WholeUnits(units)
    requires forall i, j | 0 <= i < j < |units| :: units[i] != units[j]
    ensures var u, init := units[|units| - 1], units[..|units| - 1];
            && CoveredKeys(Purge(before, u) + UnitRows(f, u), units) == CoveredKeys(before, init) + UnitRows(f, u).Keys
            && CoveredKeys(before, init) !! UnitRows(f, u).Keys
  {
    var u, init := units[|units| - 1], units[..|units| - 1];
    forall k: Key
      ensures k in CoveredKeys(Purge(before, u) + UnitRows(f, u), units) <==>
              k in CoveredKeys(before, init) || k in UnitRows(f, u).Keys
      ensures !(k in CoveredKeys(before, init) && k in UnitRows(f, u).Keys)
    {
      UnitRowsHave(f, u, k);
      if k in CoveredKeys(before, init) {
        FreshUnitIsDisjoint(before, units, k);
      }
    }
  }

  /** The rows written add up to the rows that the covered units now have. */
  lemma {:induction false} TotalIsCoveredRows(t: Table, f: Facts, units: seq<Unit>)
    requires FactsOk(f) && WholeUnits(units)
    requires forall u <- units :: Sound(f, u.family)
    requires forall i, j | 0 <= i < j < |units| :: units[i] != units[j]
    ensures TotalRows(f, units) == |CoveredKeys(Apply(t, f, units), units)|
  {
    if units == [] {
      assert CoveredKeys(Apply(t, f, units), units) == {};
    } else {
      var init, u := units[..|units| - 1], units[|units| - 1];
      assert u in units;
      TotalIsCoveredRows(t, f, init);
      OneMoreUnitCovers(Apply(t, f, init), f, units);
      UnitSize(f, u);
    }
  }

  lemma {:induction false} ApplyKeepsTableOk(t: Table, f: Facts, units: seq<Unit>)
    requires FactsOk(f) && WholeUnits(units) && TableOk(t)
    requires forall u <- units :: Sound(f, u.family)
    ensures TableOk(Apply(t, f, units))
  {
    if units != [] {
      var u := units[|units| - 1];
      assert u in units;
      ApplyKeepsTableOk(t, f, units[..|units| - 1]);
      ComputesIff(f, u);
      forall k <- UnitRows(f, u) ensures RowOk(k, UnitRows(f, u)[k]) {
        var d :| d in Dimensions(f, u.family) && k == KeyOf(u, d);
        assert DimensionOk(u.family, d);
      }
    }
  }

  // ---- The backfill ----

  function DayUnits(day: Span, families: seq<Family>): (r: seq<Unit>)
    ensures |r| == |families| && forall i | 0 <= i < |r| :: r[i] == Unit(families[i], day)
  {
    seq(|families|, i requires 0 <= i < |families| => Unit(families[i], day))
  }

  /** Day by day, and for each day family by family. */
  function UnitsOf(days: seq<Span>, families: seq<Family>): (r: seq<Unit>) {
    if days == [] then [] else DayUnits(days[0], families) + UnitsOf(days[1..], families)
  }

  lemma {:induction false} UnitsOfHave(days: seq<Span>, families: seq<Family>, u: Unit)
    ensures u in UnitsOf(days, families) <==> u.day in days && u.family in families
  {
    if days != [] {
      UnitsOfHave(days[1..], families, u);
      var head := DayUnits(days[0], families);
      if u.day == days[0] && u.family in families {
        var i :| 0 <= i < |families| && families[i] == u.family;
        assert head[i] == u;
      }
      assert days == [days[0]] + days[1..];
    }
  }

  lemma {:induction false} UnitsOfDistinct(days: seq<Span>, families: seq<Family>)
    requires forall i, j | 0 <= i < j < |days| :: days[i] != days[j]
    requires forall i, j | 0 <= i < j < |families| :: families[i] != families[j]
    ensures var r := UnitsOf(days, families); forall i, j | 0 <= i < j < |r| :: r[i] != r[j]
  {
    if days != [] {
      UnitsOfDistinct(days[1..], families);
      var head, rest, all := DayUnits(days[0], families), UnitsOf(days[1..], families), UnitsOf(days, families);
      forall i, j | 0 <= i < j < |all| ensures all[i] != all[j] {
        if i < |head| <= j {
          UnitsOfHave(days[1..], families, rest[j - |head|]);
          assert rest[j - |head|] in rest && all[i].day == days[0];
          var d :| 0 <= d < |days[1..]| && days[1..][d] == all[j].day;
          assert days[d + 1] != days[0];
        }
      }
    }
  }

  predicate CoveredDay(k: Key, start: int, end: int, families: seq<Family>) {
    k.family in families && k.start % DAY == 0 && start <= k.start && k.start + DAY <= end
  }

  lemma CoverIff(start: int, end: int, families: seq<Family>, k: Key)
    requires WholeUnits(UnitsOf(DailyBucketsOf(start, end), families))
    ensures CoverOf(UnitsOf(DailyBucketsOf(start, end), families), k) ==
            if CoveredDay(k, start, end, families) then Some(UnitOf(k)) else None
  {
    var days := DailyBucketsOf(start, end);
    var units, day := UnitsOf(days, families), Span(k.start, k.start + DAY);
    UnitsOfHave(days, families, Unit(k.family, day));
    BucketsAreTheWholeDays(start, end, day);
    if CoverOf(units, k).Some? {
      assert CoverOf(units, k).value in units && WholeDay(CoverOf(units, k).value.day);
    }
  }

  /** The unit that a key belongs to. */
  function UnitOf(k: Key): Unit {
    Unit(k.family, Span(k.start, k.start + DAY))
  }

  lemma CoveredLookup(t: Table, f: Facts, start: int, end: int, families: seq<Family>, k: Key)
    requires FactsOk(f) && WholeUnits(UnitsOf(DailyBucketsOf(start, end), families))
    ensures Get(Apply(t, f, UnitsOf(DailyBucketsOf(start, end), families)), k) ==
            if CoveredDay(k, start, end, families) then Measured(f, UnitOf(k), k) else Get(t, k)
  {
    var units := UnitsOf(DailyBucketsOf(start, end), families);
    assert CoverOf(units, k) ==
           if CoveredDay(k, start, end, families) then Some(UnitOf(k)) else None by {
      CoverIff(start, end, families, k);
    }
    ApplyLookup(t, f, units, k);
    UnitRowsExact(f, UnitOf(k), k);
  }

  /** What a complete backfill of [start, end) does to every row, and what it counts. */
  lemma BackfillMeaning(t: Table, f: Facts, start: int, end: int, families: seq<Family>)
    requires FactsOk(f)
    requires forall i, j | 0 <= i < j < |families| :: families[i] != families[j]
    requires forall u <- UnitsOf(DailyBucketsOf(start, end), families) :: Sound(f, u.family)
    ensures var r := Apply(t, f, UnitsOf(DailyBucketsOf(start, end), families));
            && (forall k: Key ::
                  Get(r, k) == if CoveredDay(k, start, end, families) then Measured(f, UnitOf(k), k) else Get(t, k))
            && TotalRows(f, UnitsOf(DailyBucketsOf(start, end), families)) ==
               |set k <- r | CoveredDay(k, start, end, families)|
  {
    var units := UnitsOf(DailyBucketsOf(start, end), families);
    var r := Apply(t, f, units);
    BackfillUnits(start, end, families);
    TotalIsCoveredRows(t, f, units);
    forall k: Key
      ensures CoverOf(units, k).Some? <==> CoveredDay(k, start, end, families)
      ensures Get(r, k) == if CoveredDay(k, start, end, families) then Measured(f, UnitOf(k), k) else Get(t, k)
    {
      CoveredLookup(t, f, start, end, families, k);
      CoverIff(start, end, families, k);
    }
    assert CoveredKeys(r, units) == set k <- r | CoveredDay(k, start, end, families);
  }

  lemma BackfillUnits(start: int, end: int, families: seq<Family>)
    requires forall i, j | 0 <= i < j < |families| :: families[i] != families[j]
    ensures var units := UnitsOf(DailyBucketsOf(start, end), families);
            && WholeUnits(units)
            && (forall i, j | 0 <= i < j < |units| :: units[i] != units[j])
  {
    var days := DailyBucketsOf(start, end);
    BucketsAreTheWholeDays(start, end, Span(0, 0));
    forall day <- days ensures WholeDay(day) {
      BucketsAreTheWholeDays(start, end, day);
    }
    forall i, j | 0 <= i < j < |days| ensures days[i] != days[j] {
      assert days[i] in days;
    }
    UnitsOfDistinct(days, families);
    forall u <- UnitsOf(days, families) ensures WholeDay(u.day) {
      UnitsOfHave(days, families, u);
    }
  }

  lemma {:induction false} SoundPrefixIs(f: Facts, done: seq<Unit>, rest: seq<Unit>)
    requires forall u <- done :: Sound(f, u.family)
    requires rest != [] ==> !Sound(f, rest[0].family)
    ensures SoundPrefix(f, done + rest) == done
  {
    if done == [] {
      assert done + rest == rest;
    } else {
      assert done[0] in done && (done + rest)[1..] == done[1..] + rest;
      SoundPrefixIs(f, done[1..], rest);
    }
  }

  lemma ApplyOneMore(t: Table, f: Facts, done: seq<Unit>, u: Unit)
    requires FactsOk(f)
    ensures Apply(t, f, done + [u]) == Purge(Apply(t, f, done), u) + UnitRows(f, u)
    ensures TotalRows(f, done + [u]) == TotalRows(f, done) + |Dimensions(f, u.family)|
  {
    assert (done + [u])[..|done|] == done;
  }

  /** How a backfill ends: it reports a total, finds the schema unusable, stops on an exception,
      or the process goes away between two units. */
  datatype Outcome = Finished(total: nat) | Incapable | Raised | Stopped

  function FamiliesOf(family: Option<Family>): (r: seq<Family>) {
    if family.Some? && family.value != UnknownFamily("") then [family.value] else FAMILIES
  }

  /** The units the process gets to before it goes away. */
  function Reached(units: seq<Unit>, survives: nat): (r: seq<Unit>) {
    if survives < |units| then units[..survives] else units
  }

  /** The units still to come when the loops are at day i and family j. */
  function UnitsFrom(days: seq<Span>, families: seq<Family>, i: nat, j: nat): (r: seq<Unit>)
    requires i <= |days| && j <= |families|
  {
    if i == |days| then [] else DayUnits(days[i], families[j..]) + UnitsOf(days[i + 1..], families)
  }

  lemma FirstUnit(day: Span, families: seq<Family>)
    requires families != []
    ensures DayUnits(day, families) == [Unit(families[0], day)] + DayUnits(day, families[1..])
  {
  }

  lemma Join(u: Unit, a: seq<Unit>, b: seq<Unit>)
    ensures ([u] + a) + b == [u] + (a + b)
  {
  }

  lemma NextUnit(days: seq<Span>, families: seq<Family>, i: nat, j: nat)
    requires i < |days| && j < |families|
    ensures UnitsFrom(days, families, i, j) == [Unit(families[j], days[i])] + UnitsFrom(days, families, i, j + 1)
  {
    assert DayUnits(days[i], families[j..]) == [Unit(families[j], days[i])] + DayUnits(days[i], families[j + 1..]) by {
      FirstUnit(days[i], families[j..]);
      assert families[j..][1..] == families[j + 1..];
    }
    Join(Unit(families[j], days[i]), DayUnits(days[i], families[j + 1..]), UnitsOf(days[i + 1..], families));
  }

  lemma NextDay(days: seq<Span>, families: seq<Family>, i: nat)
    requires i < |days|
    ensures UnitsFrom(days, families, i, |families|) == UnitsFrom(days, families, i + 1, 0)
  {
    assert families[0..] == families && (i + 1 < |days| ==> days[i + 1..][1..] == days[i + 2..]);
  }

  ghost predicate Progress(first: Table, now: Table, f: Facts, done: seq<Unit>, total: nat)
    requires FactsOk(f)
  {
    && now == Apply(first, f, done) && total == TotalRows(f, done)
    && forall u <- done :: Sound(f, u.family)
  }

  /** The table and the outcome of a backfill that gets as far as its loops. */
  ghost function EndOf(first: Table, f: Facts, units: seq<Unit>, survives: nat): (Table, Outcome)
    requires FactsOk(f)
  {
    var reached := Reached(units, survives);
    var done := SoundPrefix(f, reached);
    (Apply(first, f, done),
     if done != reached then Raised else if reached != units then Stopped else Finished(TotalRows(f, units)))
  }

  lemma InterruptedStarts(t: Table, f: Facts, units: seq<Unit>, stops: seq<nat>, k: nat)
    requires FactsOk(f) && stops != [] && k == if stops[0] < |units| then stops[0] else |units|
    ensures Interrupted(t, f, units, stops) == Interrupted(Apply(t, f, SoundPrefix(f, units[..k])), f, units, stops[1..])
  {
  }

  lemma OneInterrupted(t: Table, f: Facts, units: seq<Unit>, stop: nat)
    requires FactsOk(f)
    ensures Interrupted(t, f, units, [stop]) == EndOf(t, f, units, stop).0
  {
    assert units[..|units|] == units && [stop][1..] == [];
  }

  /** Each interrupted run leaves what the loops leave when the process goes away after that many units. */
  lemma {:induction false} InterruptedGoesOn(t: Table, f: Facts, units: seq<Unit>, stops: seq<nat>, n: nat)
    requires FactsOk(f) && |stops| == n + 1
    ensures Interrupted(t, f, units, stops) == EndOf(Interrupted(t, f, units, stops[..n]), f, units, stops[n]).0
    decreases n
  {
    if n == 0 {
      assert stops == [stops[0]];
      OneInterrupted(t, f, units, stops[0]);
    } else {
      var k := if stops[0] < |units| then stops[0] else |units|;
      var once := Apply(t, f, SoundPrefix(f, units[..k]));
      InterruptedStarts(t, f, units, stops, k);
      InterruptedStarts(t, f, units, stops[..n], k);
      assert stops[1..][..n - 1] == stops[..n][1..];
      InterruptedGoesOn(once, f, units, stops[1..], n - 1);
    }
  }

  /** The loops have done some units and still have the rest before them. */
  ghost predicate At(first: Table, now: Table, f: Facts, units: seq<Unit>, done: seq<Unit>, rest: seq<Unit>, total: nat)
    requires FactsOk(f)
  {
    units == done + rest && Progress(first, now, f, done, total)
  }

  lemma StoppedHere(first: Table, now: Table, f: Facts, units: seq<Unit>, done: seq<Unit>, rest: seq<Unit>, total: nat)
    requires FactsOk(f) && At(first, now, f, units, done, rest, total) && rest != []
    ensures (now, Stopped) == EndOf(first, f, units, |done|)
  {
    assert units[..|done|] == done && done + [] == done;
    SoundPrefixIs(f, done, []);
  }

  lemma RaisedHere(first: Table, now: Table, f: Facts, units: seq<Unit>, done: seq<Unit>, rest: seq<Unit>, total: nat,
                   survives: nat)
    requires FactsOk(f) && At(first, now, f, units, done, rest, total) && rest != [] && !Sound(f, rest[0].family)
    requires |done| < survives
    ensures (now, Raised) == EndOf(first, f, units, survives)
  {
    var reached := Reached(units, survives);
    assert reached == done + reached[|done|..] && reached[|done|..][0] == rest[0];
    SoundPrefixIs(f, done, reached[|done|..]);
  }

  lemma StartOfRun(t: Table, f: Facts, days: seq<Span>, families: seq<Family>)
    requires FactsOk(f)
    ensures At(t, t, f, UnitsOf(days, families), [], UnitsFrom(days, families, 0, 0), 0)
  {
    assert days != [] ==> days[0..] == days && families[0..] == families;
  }

  lemma UnitAhead(first: Table, now: Table, f: Facts, units: seq<Unit>, done: seq<Unit>, u: Unit, later: seq<Unit>, total: nat)
    requires FactsOk(f) && WholeUnits(units) && At(first, now, f, units, done, [u] + later, total)
    ensures WholeDay(u.day) && units == done + ([u] + later)
  {
    assert units[|done|] == u && u in units;
  }

  lemma Regroup(a: seq<Unit>, u: Unit, b: seq<Unit>)
    ensures a + ([u] + b) == (a + [u]) + b
  {
  }

  lemma Advance(first: Table, before: Table, now: Table, f: Facts, units: seq<Unit>, done: seq<Unit>, u: Unit,
                later: seq<Unit>, total: nat)
    requires FactsOk(f) && At(first, before, f, units, done, [u] + later, total)
    requires Sound(f, u.family) && now == Purge(before, u) + UnitRows(f, u)
    ensures At(first, now, f, units, done + [u], later, total + |Dimensions(f, u.family)|)
  {
    Regroup(done, u, later);
    assert Progress(first, now, f, done + [u], total + |Dimensions(f, u.family)|) by {
      ApplyOneMore(first, f, done, u);
    }
  }

  lemma EndOfRun(first: Table, now: Table, f: Facts, units: seq<Unit>, done: seq<Unit>, total: nat, survives: nat)
    requires FactsOk(f) && At(first, now, f, units, done, [], total) && |done| <= survives
    ensures (now, Finished(total)) == EndOf(first, f, units, survives)
  {
    assert done + [] == done;
    SoundPrefixIs(f, done, []);
  }

  /** The families asked for: the one named, or all four when none is. */
  predicate Asked(family: Option<Family>, x: Family) {
    if family.None? || family.value == UnknownFamily("")
    then x == RenderReliability || x == RenderPerformance || x == SchedulerReliability || x == QaQuality
    else x == family.value
  }

  predicate InRange(k: Key, start: int, end: int, family: Option<Family>) {
    Asked(family, k.family) && k.start % DAY == 0 && start <= k.start && k.start + DAY <= end
  }

  /** Row by row: a whole day of the range and an asked family hold what the facts now give; every
      other row is kept; the total counts the rows now in range. */
  ghost predicate Backfilled(before: Table, after: Table, f: Facts, start: int, end: int, family: Option<Family>, total: nat)
    requires FactsOk(f)
  {
    && (forall k: Key :: Get(after, k) == if InRange(k, start, end, family) then Measured(f, UnitOf(k), k) else Get(before, k))
    && total == |set k <- after | InRange(k, start, end, family)|
  }

  lemma CoveredIsInRange(start: int, end: int, family: Option<Family>, k: Key)
    ensures CoveredDay(k, start, end, FamiliesOf(family)) <==> InRange(k, start, end, family)
  {
    assert FAMILIES[0] == RenderReliability && FAMILIES[1] == RenderPerformance
           && FAMILIES[2] == SchedulerReliability && FAMILIES[3] == QaQuality;
  }

  lemma FinishedApplies(first: Table, f: Facts, units: seq<Unit>, survives: nat)
    requires FactsOk(f) && EndOf(first, f, units, survives).1.Finished?
    ensures EndOf(first, f, units, survives) == (Apply(first, f, units), Finished(TotalRows(f, units)))
    ensures forall u <- units :: Sound(f, u.family)
  {
  }

  lemma SameCovered(r: Table, start: int, end: int, family: Option<Family>)
    ensures (set k <- r | CoveredDay(k, start, end, FamiliesOf(family))) == set k <- r | InRange(k, start, end, family)
  {
    forall k: Key ensures CoveredDay(k, start, end, FamiliesOf(family)) <==> InRange(k, start, end, family) {
      CoveredIsInRange(start, end, family, k);
    }
  }

  lemma AppliedIsBackfilled(first: Table, f: Facts, start: int, end: int, family: Option<Family>, units: seq<Unit>)
    requires FactsOk(f) && units == UnitsOf(DailyBucketsOf(start, end), FamiliesOf(family))
    requires forall u <- units :: Sound(f, u.family)
    ensures Backfilled(first, Apply(first, f, units), f, start, end, family, TotalRows(f, units))
  {
    var r := Apply(first, f, units);
    FamiliesDistinct(family);
    BackfillMeaning(first, f, start, end, FamiliesOf(family));
    forall k: Key ensures Get(r, k) == if InRange(k, start, end, family) then Measured(f, UnitOf(k), k) else Get(first, k) {
      CoveredIsInRange(start, end, family, k);
    }
    SameCovered(r, start, end, family);
  }

  /** A backfill that reports a total has done all it was asked for. */
  lemma FinishedIsBackfilled(first: Table, f: Facts, start: int, end: int, family: Option<Family>, survives: nat)
    requires FactsOk(f)
    requires EndOf(first, f, UnitsOf(DailyBucketsOf(start, end), FamiliesOf(family)), survives).1.Finished?
    ensures var r := EndOf(first, f, UnitsOf(DailyBucketsOf(start, end), FamiliesOf(family)), survives);
            Backfilled(first, r.0, f, start, end, family, r.1.total)
  {
    var units := UnitsOf(DailyBucketsOf(start, end), FamiliesOf(family));
    FinishedApplies(first, f, units, survives);
    AppliedIsBackfilled(first, f, start, end, family, units);
  }

  lemma SomeUnits(days: seq<Span>, families: seq<Family>)
    requires days != [] && families != []
    ensures UnitsOf(days, families) != []
  {
    assert UnitsOf(days, families)[0] == DayUnits(days[0], families)[0];
  }

  class RollupStore {
    var rows: Table

    constructor ()
      ensures rows == map[]
    {
      rows := map[];
    }

    /** Validate the dimensions one by one, up to the first that raises. */
    method Validate(family: Family, ds: seq<(Dimension, string)>) returns (ok: bool)
      ensures ok <==> forall d <- ds :: DimensionOk(family, d)
    {
      for i := 0 to |ds|
        invariant forall j | 0 <= j < i :: DimensionOk(family, ds[j])
      {
        if !DimensionOk(family, ds[i]) {
          assert ds[i] in ds;
          return false;
        }
      }
      ok := true;
    }

    /** The dimensions of the rows to write, or None where their validation raises. */
    method ComputeSnapshot(f: Facts, u: Unit) returns (ds: Option<seq<(Dimension, string)>>)
      requires FactsOk(f)
      ensures ds == if Computes(f, u) then Some(Dimensions(f, u.family)) else None
    {
      var all := Dimensions(f, u.family);
      var ok := Validate(u.family, all);
      ds := if ok then Some(all) else None;
    }

    /** Delete the rows of the unit and insert the new ones; on a violation restore the old table. */
    method ReplaceSnapshot(f: Facts, u: Unit, ds: seq<(Dimension, string)>) returns (ok: bool)
      modifies this
      ensures var r := InsertAll(Purge(old(rows), u), f, u, ds);
              ok == r.Some? && rows == if ok then r.value else old(rows)
    {
      var before := rows;
      rows := Purge(rows, u);
      ghost var goal := InsertAll(rows, f, u, ds);
      for i := 0 to |ds|
        invariant goal == InsertAll(rows, f, u, ds[i..])
      {
        var k, row := KeyOf(u, ds[i]), RowOf(f, u, ds[i]);
        if k in rows || !RowOk(k, row) {
          rows := before;
          return false;
        }
        rows := rows[k := row];
        assert ds[i..][1..] == ds[i + 1..];
      }
      ok := true;
    }

    /** Recompute one unit and replace its rows in one transaction; None is an exception. */
    method ReplaceUnit(f: Facts, u: Unit) returns (written: Option<nat>)
      requires FactsOk(f) && WholeDay(u.day)
      modifies this
      ensures written.Some? <==> Sound(f, u.family)
      ensures written.Some? ==>
                && rows == Purge(old(rows), u) + UnitRows(f, u)
                && written.value == |Dimensions(f, u.family)|
      ensures written.None? ==> rows == old(rows)
    {
      ReplacedExact(rows, f, u);
      var ds := ComputeSnapshot(f, u);
      if ds == None {
        return None;
      }
      var ok := ReplaceSnapshot(f, u, ds.value);
      written := if ok then Some(|ds.value|) else None;
    }

    /** One turn of the loops: stop, fail, or count the rows of the unit. */
    method RunUnit(u: Unit, f: Facts, survives: nat, total: nat, steps: nat,
                   ghost first: Table, ghost units: seq<Unit>, ghost done: seq<Unit>, ghost later: seq<Unit>)
      returns (end: Option<Outcome>, written: nat)
      requires FactsOk(f) && WholeUnits(units) && At(first, rows, f, units, done, [u] + later, total)
      requires steps == |done| <= survives
      modifies this
      ensures end.Some? ==> (rows, end.value) == EndOf(first, f, units, survives)
      ensures end.None? ==> steps < survives && At(first, rows, f, units, done + [u], later, total + written)
    {
      UnitAhead(first, rows, f, units, done, u, later, total);
      if steps == survives {
        StoppedHere(first, rows, f, units, done, [u] + later, total);
        return Some(Stopped), 0;
      }
      ghost var before := rows;
      var r := ReplaceUnit(f, u);
      if r == None {
        RaisedHere(first, rows, f, units, done, [u] + later, total, survives);
        return Some(Raised), 0;
      }
      Advance(first, before, rows, f, units, done, u, later, total);
      end, written := None, r.value;
    }

    /** The loops over days and families; survives is how many units the process lives to see. */
    method RunUnits(buckets: seq<Span>, families: seq<Family>, f: Facts, survives: nat) returns (outcome: Outcome)
      requires FactsOk(f) && WholeUnits(UnitsOf(buckets, families))
      modifies this
      ensures (rows, outcome) == EndOf(old(rows), f, UnitsOf(buckets, families), survives)
    {
      ghost var units := UnitsOf(buckets, families);
      ghost var first := rows;
      var total: nat, steps: nat := 0, 0;
      ghost var done: seq<Unit> := [];
      StartOfRun(rows, f, buckets, families);
      for i := 0 to |buckets|
        invariant At(first, rows, f, units, done, UnitsFrom(buckets, families, i, 0), total)
        invariant steps == |done| <= survives
      {
        for j := 0 to |families|
          invariant At(first, rows, f, units, done, UnitsFrom(buckets, families, i, j), total)
          invariant steps == |done| <= survives
        {
          NextUnit(buckets, families, i, j);
          ghost var later := UnitsFrom(buckets, families, i, j + 1);
          var end, written := RunUnit(Unit(families[j], buckets[i]), f, survives, total, steps, first, units, done, later);
          if end.Some? {
            return end.value;
          }
          total, steps, done := total + written, steps + 1, done + [Unit(families[j], buckets[i])];
        }
        NextDay(buckets, families, i);
      }
      EndOfRun(first, rows, f, units, done, total, survives);
      outcome := Finished(total);
    }

    method ExecuteWithSession(buckets: seq<Span>, families: seq<Family>, capable: bool, f: Facts, survives: nat)
      returns (outcome: Outcome)
      requires FactsOk(f) && WholeUnits(UnitsOf(buckets, families))
      modifies this
      ensures if !capable then outcome == Incapable && rows == old(rows)
              else (rows, outcome) == EndOf(old(rows), f, UnitsOf(buckets, families), survives)
    {
      if !capable {
        return Incapable;
      }
      outcome := RunUnits(buckets, families, f, survives);
    }

    method RunBackfill(start: int, end: int, family: Option<Family>, capable: bool, f: Facts, survives: nat)
      returns (outcome: Outcome)
      requires FactsOk(f)
      modifies this
      ensures var units := UnitsOf(DailyBucketsOf(start, end), FamiliesOf(family));
              if units == [] then outcome == Finished(0) && rows == old(rows)
              else if !capable then outcome == Incapable && rows == old(rows)
              else (rows, outcome) == EndOf(old(rows), f, units, survives)
      ensures outcome.Finished? ==> Backfilled(old(rows), rows, f, start, end, family, outcome.total)
    {
      ghost var first := rows;
      var buckets := DailyBuckets(start, end);
      if buckets == [] {
        assert EndOf(rows, f, [], survives) == (rows, Finished(0));
        FinishedIsBackfilled(rows, f, start, end, family, survives);
        return Finished(0);
      }
      FamiliesDistinct(family);
      BackfillUnits(start, end, FamiliesOf(family));
      SomeUnits(buckets, FamiliesOf(family));
      outcome := ExecuteWithSession(buckets, FamiliesOf(family), capable, f, survives);
      if outcome.Finished? {
        FinishedIsBackfilled(first, f, start, end, family, survives);
      }
    }
  }

  lemma FamiliesDistinct(family: Option<Family>)
    ensures var families := FamiliesOf(family);
            |families| > 0 && forall i, j | 0 <= i < j < |families| :: families[i] != families[j]
  {
  }
}
