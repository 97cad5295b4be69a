/**
 How an analytics query over [start, end) is cut into a partial first day, complete closed days,
 a partial last day and the open part of today. The engine promises no overlap and no gap; the
 first holds always, the second exactly when Loses does not.
 */
module HybridQuery {
  import opened Wrappers
  import opened Rollups

  datatype Partition = Partition(first: Option<Span>, closed: seq<Span>, last: Option<Span>, open: Option<Span>)

  function Chosen(s: Option<Span>): seq<Span> {
    if s.Some? then [s.value] else []
  }

  /** The segments in the order of time. */
  function Pieces(p: Partition): seq<Span> {
    Chosen(p.first) + p.closed + Chosen(p.last) + Chosen(p.open)
  }

  function Min(a: int, b: int): int { if a <= b then a else b }
  function Max(a: int, b: int): int { if a >= b then a else b }

  /** The cut of the closed past [start, end), start < end. */
  function PastOf(start: int, end: int, open: Option<Span>): (p: Partition) {
    var midnight, endMidnight := DayStart(start), DayStart(end);
    var cut := Min(midnight + DAY, end);
    var first := if start > midnight then Some(Span(start, cut)) else None;
    var from := if start > midnight then cut else midnight;
    if end > endMidnight && from < endMidnight then
      Partition(first, DaysUntil(from, endMidnight), Some(Span(endMidnight, end)), open)
    else if end > endMidnight && first.None? then
      Partition(Some(Span(start, end)), [], None, open)
    else
      Partition(first, DaysUntil(from, end), None, open)
  }

  /** None is the ValueError for an empty or reversed range. */
  function PartitionOf(start: int, end: int, now: int): (p: Option<Partition>) {
    var today := DayStart(now);
    if end <= start then None
    else if end <= today then Some(PastOf(start, end, None))
    else if start < today then Some(PastOf(start, today, Some(Span(today, end))))
    else Some(Partition(None, [], None, Some(Span(start, end))))
  }

  // ---- Tilings ----

  /** Non-empty pieces, each starting where the one before it ends, from a to b. */
  predicate Tiles(ps: seq<Span>, a: int, b: int) {
    if ps == [] then a == b
    else ps[0].start == a && a < ps[0].end && Tiles(ps[1..], ps[0].end, b)
  }

  lemma {:induction false} TilesJoin(ps: seq<Span>, qs: seq<Span>, a: int, b: int, c: int)
    requires Tiles(ps, a, b) && Tiles(qs, b, c)
    ensures Tiles(ps + qs, a, c)
  {
    if ps == [] {
      assert ps + qs == qs;
    } else {
      assert (ps + qs)[1..] == ps[1..] + qs;
      TilesJoin(ps[1..], qs, ps[0].end, b, c);
    }
  }

  lemma {:induction false} DaysTile(from: int, end: int)
    requires from <= end && (end - from) % DAY == 0
    ensures Tiles(DaysUntil(from, end), from, end)
    decreases end - from
  {
    if from + DAY <= end {
      DaysTile(from + DAY, end);
    }
  }

  /** Adjacent day buckets tile a range of whole days exactly. */
  lemma BucketsTile(start: int, end: int)
    requires start <= end && start % DAY == 0 && end % DAY == 0
    ensures Tiles(DailyBucketsOf(start, end), start, end)
  {
    if start < end {
      assert FirstMidnight(start) == start;
      DaysTile(start, end);
    }
  }

  predicate Inside(s: Span, t: int) { s.start <= t < s.end }

  function Count(ps: seq<Span>, t: int): (n: nat) {
    if ps == [] then 0 else (if Inside(ps[0], t) then 1 else 0) + Count(ps[1..], t)
  }

  lemma {:induction false} TilesCountOnce(ps: seq<Span>, a: int, b: int, t: int)
    requires Tiles(ps, a, b)
    ensures a <= b && Count(ps, t) == if a <= t < b then 1 else 0
  {
    if ps != [] {
      TilesCountOnce(ps[1..], ps[0].end, b, t);
    }
  }

  // ---- What the cut covers ----

  /** Both ends fall strictly inside neighbouring closed days. */
  predicate Loses(start: int, end: int, now: int) {
    && end <= DayStart(now)
    && start % DAY != 0 && end % DAY != 0
    && DayStart(end) == DayStart(start) + DAY
  }

  lemma PastTiles(start: int, end: int, open: Option<Span>)
    requires start < end
    ensures var p := PastOf(start, end, open);
            var lost := start % DAY != 0 && end % DAY != 0 && DayStart(end) == DayStart(start) + DAY;
            Tiles(Chosen(p.first) + p.closed + Chosen(p.last), start, if lost then DayStart(end) else end)
  {
    var midnight, endMidnight := DayStart(start), DayStart(end);
    var p := PastOf(start, end, open);
    var cut := Min(midnight + DAY, end);
    var from := if start > midnight then cut else midnight;
    var first := if start > midnight then Some(Span(start, cut)) else None;
    assert Tiles(Chosen(first), start, from);
    if end > endMidnight && from < endMidnight {
      assert Tiles(Chosen(first) + p.closed, start, endMidnight) by {
        DaysTile(from, endMidnight);
        TilesJoin(Chosen(first), p.closed, start, from, endMidnight);
      }
      TilesJoin(Chosen(first) + p.closed, Chosen(p.last), start, endMidnight, end);
    } else if end > endMidnight && first.None? {
      assert Chosen(p.first) + p.closed + Chosen(p.last) == [Span(start, end)];
    } else {
      if end == endMidnight {
        assert Tiles(Chosen(first) + p.closed, start, end) by {
          DaysTile(from, end);
          TilesJoin(Chosen(first), p.closed, start, from, end);
        }
      } else {
        assert p.closed == [];
      }
      assert Chosen(p.first) + p.closed + Chosen(p.last) == Chosen(first) + p.closed;
    }
  }

  /** The pieces run on from start without overlap; they reach end exactly when nothing is lost,
      and otherwise stop at the last midnight. */
  lemma PiecesTile(start: int, end: int, now: int)
    requires start < end
    ensures var p := PartitionOf(start, end, now).value;
            Tiles(Pieces(p), start, if Loses(start, end, now) then DayStart(end) else end)
  {
    var today := DayStart(now);
    var p := PartitionOf(start, end, now).value;
    var past := Chosen(p.first) + p.closed + Chosen(p.last);
    if end <= today {
      PastTiles(start, end, None);
      assert Pieces(p) == past;
    } else if start < today {
      PastTiles(start, today, Some(Span(today, end)));
      TilesJoin(past, Chosen(p.open), start, today, end);
    } else {
      assert Pieces(p) == [Span(start, end)];
    }
  }

  /** An error for an empty or reversed range; else pieces that run on without overlap, as far as the
      end or, where the range loses, its last midnight. */
  predicate RightCut(p: Option<Partition>, start: int, end: int, now: int) {
    match p
    case None => end <= start
    case Some(q) => start < end && Tiles(Pieces(q), start, if Loses(start, end, now) then DayStart(end) else end)
  }

  lemma CutIsRight(start: int, end: int, now: int)
    ensures RightCut(PartitionOf(start, end, now), start, end, now)
  {
    if start < end {
      PiecesTile(start, end, now);
    }
  }

  method PartitionQueryIntervals(start: int, end: int, now: int) returns (p: Option<Partition>)
    ensures p == PartitionOf(start, end, now)
    ensures RightCut(p, start, end, now)
  {
    CutIsRight(start, end, now);
    if end <= start {
      return None;
    }
    var today := DayStart(now);
    var open: Option<Span> := None;
    var historicalEnd := end;
    if end > today {
      var openStart := Max(start, today);
      open := Some(Span(openStart, end));
      historicalEnd := openStart;
    }
    if historicalEnd <= start {
      return Some(Partition(None, [], None, open));
    }
    var midnight := DayStart(start);
    var first: Option<Span> := None;
    var completeStart := midnight;
    if start > midnight {
      var cut := Min(midnight + DAY, historicalEnd);
      first := Some(Span(start, cut));
      completeStart := cut;
    }
    var endMidnight := DayStart(historicalEnd);
    var last: Option<Span> := None;
    var completeEnd := historicalEnd;
    if historicalEnd > endMidnight {
      if completeStart < endMidnight {
        last := Some(Span(endMidnight, historicalEnd));
        completeEnd := endMidnight;
      } else if first == None && start < historicalEnd {
        first := Some(Span(start, historicalEnd));
        completeStart := historicalEnd;
      }
    }
    var closed: seq<Span> := [];
    var cur := completeStart;
    ghost var all := DaysUntil(cur, completeEnd);
    while cur + DAY <= completeEnd
      invariant all == closed + DaysUntil(cur, completeEnd)
      decreases completeEnd - cur
    {
      DaysOneMore(closed, cur, completeEnd);
      closed := closed + [Span(cur, cur + DAY)];
      cur := cur + DAY;
    }
    assert closed == all;
    p := Some(Partition(first, closed, last, open));
    assert p.value == PastOf(start, historicalEnd, open);
  }

  /** No instant is counted twice, none outside the range is counted, and an instant of the range
      is missed exactly when it lies after the last midnight of a range that loses. */
  lemma InstantsCounted(start: int, end: int, now: int, t: int)
    requires start < end
    ensures var p := PartitionOf(start, end, now).value;
            Count(Pieces(p), t) ==
            if start <= t < end && !(Loses(start, end, now) && DayStart(end) <= t) then 1 else 0
  {
    PiecesTile(start, end, now);
    TilesCountOnce(Pieces(PartitionOf(start, end, now).value), start,
                   if Loses(start, end, now) then DayStart(end) else end, t);
  }

  /** The promise of no gap, and exactly when it is kept. */
  lemma NoGapIff(start: int, end: int, now: int)
    requires start < end
    ensures (forall t | start <= t < end :: Count(Pieces(PartitionOf(start, end, now).value), t) == 1)
            <==> !Loses(start, end, now)
  {
    forall t ensures start <= t < end && !Loses(start, end, now) ==>
                       Count(Pieces(PartitionOf(start, end, now).value), t) == 1 {
      InstantsCounted(start, end, now, t);
    }
    if Loses(start, end, now) {
      InstantsCounted(start, end, now, DayStart(end));
      assert Count(Pieces(PartitionOf(start, end, now).value), DayStart(end)) == 0;
    }
  }

  predicate PartOfADay(s: Span) {
    s.start < s.end && DayStart(s.start) == DayStart(s.end - 1) && s.end - s.start < DAY
  }

  lemma PastDays(start: int, end: int, open: Option<Span>, d: Span)
    requires start < end && d in PastOf(start, end, open).closed
    ensures WholeDay(d) && start <= d.start && d.end <= end
  {
    var midnight, endMidnight := DayStart(start), DayStart(end);
    var from := if start > midnight then Min(midnight + DAY, end) else midnight;
    var until := if end > endMidnight && from < endMidnight then endMidnight else end;
    assert d in DaysUntil(from, until);
    if from % DAY == 0 {
      DaysUntilTile(from, until);
    } else {
      assert false;
    }
  }

  lemma FirstPart(start: int, end: int, open: Option<Span>, s: Span)
    requires start < end && PastOf(start, end, open).first == Some(s)
    ensures PartOfADay(s) && start <= s.start && s.end <= end
  {
  }

  lemma LastPart(start: int, end: int, open: Option<Span>, s: Span)
    requires start < end && PastOf(start, end, open).last == Some(s)
    ensures PartOfADay(s) && start <= s.start && s.end <= end
  {
  }

  lemma PastParts(start: int, end: int, open: Option<Span>, s: Span)
    requires start < end
    requires var p := PastOf(start, end, open); s in Chosen(p.first) + Chosen(p.last)
    ensures PartOfADay(s) && start <= s.start && s.end <= end
  {
    if PastOf(start, end, open).first == Some(s) {
      FirstPart(start, end, open, s);
    } else {
      LastPart(start, end, open, s);
    }
  }

  /** Each kind of segment is what its name says: rollups are asked only for whole closed days, and
      the other closed segments are proper parts of one day each. */
  lemma SegmentKinds(start: int, end: int, now: int)
    requires start < end
    ensures var p := PartitionOf(start, end, now).value;
            var today := DayStart(now);
            && (forall d <- p.closed :: WholeDay(d) && d.end <= today)
            && (forall s <- Chosen(p.first) + Chosen(p.last) :: PartOfADay(s) && s.end <= today)
            && (forall s <- Chosen(p.open) :: today <= s.start && s.end == end)
            && (p.open.Some? <==> end > today)
  {
    var p, today := PartitionOf(start, end, now).value, DayStart(now);
    var stop := Min(end, today);
    var open := if end <= today then None else Some(Span(today, end));
    if start < stop {
      assert p == PastOf(start, stop, open);
      forall d <- p.closed ensures WholeDay(d) && d.end <= today {
        PastDays(start, stop, open, d);
      }
      forall s <- Chosen(p.first) + Chosen(p.last) ensures PartOfADay(s) && s.end <= today {
        PastParts(start, stop, open, s);
      }
    }
  }

  /** Noon to noon over two past days: the second half-day is in no segment. */
  lemma NoonToNoonLosesTheMorning(day: int, now: int)
    requires day % DAY == 0 && day + 2 * DAY <= now
    ensures var p := PartitionOf(day + DAY / 2, day + DAY + DAY / 2, now).value;
            Pieces(p) == [Span(day + DAY / 2, day + DAY)]
  {
    var start, end := day + DAY / 2, day + DAY + DAY / 2;
    assert DayStart(start) == day && DayStart(end) == day + DAY;
    assert end <= DayStart(now) by {
      assert DayStart(now) >= day + 2 * DAY;
    }
  }
}
