/**
 One schedule's timeline: which ticks a sweep records, runs and skips, and how the lifecycle
 operations move next_run_at. A recurrence is a function from a reference instant to the next
 tick; both the interval rule and the cron search return a tick after their reference.
 Instants count seconds.
 */
module ScheduleTimeline {
  import opened Wrappers
  import opened ScheduleStore

  type Recurrence = int -> Option<int>

  const MAX_LOOP := 50

  ghost predicate Forward(next: Recurrence) {
    forall r :: next(r).Some? ==> next(r).value > r
  }

  /** The interval rule: start first, then a step from the reference, until the end. */
  function IntervalRule(interval: int, start: int, end: Option<int>): (next: Recurrence)
    requires interval >= MINIMUM_INTERVAL_SECONDS
    ensures Forward(next)
  {
    (reference: int) =>
      var n := if reference < start then start else reference + interval;
      if end.Some? && n > end.value then None else Some(n)
  }

  /** Every tick from the first one up to the given instant. */
  ghost function AllTicks(next: Recurrence, first: int, upTo: int): (ticks: seq<int>)
    requires Forward(next)
    decreases upTo - first
  {
    match next(first)
    case None => [first]
    case Some(n) => if n > upTo then [first] else [first] + AllTicks(next, n, upTo)
  }

  lemma {:induction false} AllTicksIncrease(next: Recurrence, first: int, upTo: int)
    requires Forward(next)
    ensures var ticks := AllTicks(next, first, upTo);
            && ticks != [] && ticks[0] == first
            && (forall i, j | 0 <= i < j < |ticks| :: ticks[i] < ticks[j])
            && (forall i | 0 < i < |ticks| :: ticks[i] <= upTo)
    decreases upTo - first
  {
    match next(first)
    case None =>
    case Some(n) =>
      if n <= upTo {
        AllTicksIncrease(next, n, upTo);
      }
  }

  function FirstOf(s: seq<int>, n: nat): seq<int> {
    if |s| <= n then s else s[..n]
  }

  /** The ticks after the reference. */
  ghost function LaterTicks(next: Recurrence, ref: int, upTo: int): (ticks: seq<int>)
    requires Forward(next)
  {
    match next(ref)
    case None => []
    case Some(n) => if n > upTo then [] else AllTicks(next, n, upTo)
  }

  lemma TicksSplit(next: Recurrence, ref: int, upTo: int)
    requires Forward(next)
    ensures AllTicks(next, ref, upTo) == [ref] + LaterTicks(next, ref, upTo)
  {
  }

  /** What the search has left to find after the ticks collected so far. */
  lemma CollectOneMore(next: Recurrence, all: seq<int>, ticks: seq<int>, ref: int, upTo: int)
    requires Forward(next) && all == ticks + LaterTicks(next, ref, upTo)
    requires next(ref).Some? && next(ref).value <= upTo
    ensures all == (ticks + [next(ref).value]) + LaterTicks(next, next(ref).value, upTo)
  {
    TicksSplit(next, next(ref).value, upTo);
  }

  /** The search for missed ticks stops after fifty. */
  method CollectMissedTicks(next: Recurrence, from: int, upTo: int) returns (ticks: seq<int>)
    requires Forward(next)
    ensures ticks == FirstOf(AllTicks(next, from, upTo), MAX_LOOP)
  {
    ticks := [from];
    var ref := from;
    ghost var all := AllTicks(next, from, upTo);
    TicksSplit(next, from, upTo);
    ghost var later := LaterTicks(next, from, upTo);
    while |ticks| < MAX_LOOP
      invariant |ticks| <= MAX_LOOP
      invariant all == ticks + later && later == LaterTicks(next, ref, upTo)
      decreases MAX_LOOP - |ticks|
    {
      var nxt := next(ref);
      if nxt.None? || nxt.value > upTo {
        assert later == [];
        break;
      }
      CollectOneMore(next, all, ticks, ref, upTo);
      ticks := ticks + [nxt.value];
      ref := nxt.value;
      later := LaterTicks(next, ref, upTo);
    }
    assert ticks == FirstOf(all, MAX_LOOP);
  }

  // ---- Catch-up ----

  function Insert(x: int, s: seq<int>): (r: seq<int>)
    ensures multiset(r) == multiset(s) + multiset{x}
  {
    if s == [] || x <= s[0] then [x] + s
    else
      assert s == [s[0]] + s[1..];
      [s[0]] + Insert(x, s[1..])
  }

  function Sorted(s: seq<int>): (r: seq<int>)
    ensures multiset(r) == multiset(s) && |r| == |s|
  {
    if s == [] then []
    else
      assert s == [s[0]] + s[1..];
      var r := Insert(s[0], Sorted(s[1..]));
      assert |multiset(r)| == |multiset(s)|;
      r
  }

  predicate Ascending(s: seq<int>) {
    forall i, j | 0 <= i < j < |s| :: s[i] <= s[j]
  }

  lemma InsertedNotBelow(bound: int, x: int, s: seq<int>)
    requires bound <= x && forall i | 0 <= i < |s| :: bound <= s[i]
    ensures forall i | 0 <= i < |Insert(x, s)| :: bound <= Insert(x, s)[i]
  {
    var r := Insert(x, s);
    forall i | 0 <= i < |r| ensures bound <= r[i] {
      assert r[i] in multiset(r);
      if r[i] != x {
        assert r[i] in multiset(s);
      }
    }
  }

  lemma {:induction false} InsertAscending(x: int, s: seq<int>)
    requires Ascending(s)
    ensures Ascending(Insert(x, s))
    ensures s == [] || x <= s[0] ==> Insert(x, s) == [x] + s
  {
    if s != [] && x > s[0] {
      InsertAscending(x, s[1..]);
      InsertedNotBelow(s[0], x, s[1..]);
      PrependAscending(s[0], Insert(x, s[1..]));
    }
  }

  lemma PrependAscending(x: int, s: seq<int>)
    requires Ascending(s) && forall i | 0 <= i < |s| :: x <= s[i]
    ensures Ascending([x] + s)
  {
    var r := [x] + s;
    forall i, j | 0 <= i < j < |r| ensures r[i] <= r[j] {
      assert r[j] == s[j - 1];
      if i > 0 {
        assert r[i] == s[i - 1];
      }
    }
  }

  lemma {:induction false} SortedIsAscending(s: seq<int>)
    ensures Ascending(Sorted(s))
  {
    if s != [] {
      SortedIsAscending(s[1..]);
      InsertAscending(s[0], Sorted(s[1..]));
    }
  }

  lemma {:induction false} SortedChangesNothing(s: seq<int>)
    requires Ascending(s)
    ensures Sorted(s) == s
  {
    if s != [] {
      SortedChangesNothing(s[1..]);
      InsertAscending(s[0], s[1..]);
      assert s == [s[0]] + s[1..];
    }
  }

  function Bounded(maxCatchUp: int): (n: nat)
    ensures 1 <= n <= MAX_CATCH_UP_CAP
  {
    var m := if maxCatchUp < MAX_CATCH_UP_CAP then maxCatchUp else MAX_CATCH_UP_CAP;
    if m < 1 then 1 else m
  }

  datatype Partition = Partition(run: seq<int>, skip: seq<int>)

  function PartitionCatchUp(missed: seq<int>, policy: CatchUpPolicy, maxCatchUp: int): (p: Partition) {
    if missed == [] then Partition([], [])
    else
      var sorted := Sorted(missed);
      var n := |sorted|;
      match policy
      case SkipMissed => Partition([], sorted)
      case RunLatestOnly => Partition([sorted[n - 1]], sorted[..n - 1])
      case RunAllBounded =>
        var bound := Bounded(maxCatchUp);
        if n <= bound then Partition(sorted, []) else Partition(sorted[n - bound..], sorted[..n - bound])
  }

  lemma SplitAt(s: seq<int>, k: nat)
    requires k <= |s|
    ensures s[..k] + s[k..] == s
    ensures k == |s| - 1 ==> s[k..] == [s[k]]
  {
  }

  /** The skipped ticks come first, then the ticks to run. */
  lemma PartitionSplits(missed: seq<int>, policy: CatchUpPolicy, maxCatchUp: int)
    ensures var p := PartitionCatchUp(missed, policy, maxCatchUp); p.skip + p.run == Sorted(missed)
  {
    if missed != [] {
      var n := |Sorted(missed)|;
      SplitAt(Sorted(missed), n - 1);
      if n > Bounded(maxCatchUp) {
        SplitAt(Sorted(missed), n - Bounded(maxCatchUp));
      }
    }
  }

  /** Nothing is lost or repeated, the run part is the latest ticks, and it stays within its bound. */
  lemma PartitionConserves(missed: seq<int>, policy: CatchUpPolicy, maxCatchUp: int)
    ensures var p := PartitionCatchUp(missed, policy, maxCatchUp);
            && multiset(p.skip) + multiset(p.run) == multiset(missed)
            && Ascending(p.skip + p.run)
            && |p.run| <= (match policy case SkipMissed => 0 case RunLatestOnly => 1 case RunAllBounded => Bounded(maxCatchUp))
  {
    PartitionSplits(missed, policy, maxCatchUp);
    SortedIsAscending(missed);
    var p := PartitionCatchUp(missed, policy, maxCatchUp);
    assert multiset(p.skip + p.run) == multiset(p.skip) + multiset(p.run);
  }

  /** How many ticks each policy runs: none, one, or as many as its limit between 1 and 10 allows. */
  function RunCount(missed: nat, policy: CatchUpPolicy, maxCatchUp: int): (n: nat)
    ensures n <= missed
  {
    match policy
    case SkipMissed => 0
    case RunLatestOnly => if missed == 0 then 0 else 1
    case RunAllBounded =>
      var limit := if maxCatchUp < 1 then 1 else if maxCatchUp > 10 then 10 else maxCatchUp;
      if missed < limit then missed else limit
  }

  lemma RunsThatMany(missed: seq<int>, policy: CatchUpPolicy, maxCatchUp: int)
    ensures |PartitionCatchUp(missed, policy, maxCatchUp).run| == RunCount(|missed|, policy, maxCatchUp)
  {
  }

  lemma Parts(a: seq<int>, b: seq<int>, s: seq<int>)
    requires a + b == s
    ensures b == s[|s| - |b|..] && a == s[..|s| - |b|]
  {
  }

  /** The latest that many ticks run, and all the earlier ones are skipped. */
  lemma PartitionExact(missed: seq<int>, policy: CatchUpPolicy, maxCatchUp: int)
    ensures var p, n := PartitionCatchUp(missed, policy, maxCatchUp), RunCount(|missed|, policy, maxCatchUp);
            p.run == Sorted(missed)[|missed| - n..] && p.skip == Sorted(missed)[..|missed| - n]
  {
    var p := PartitionCatchUp(missed, policy, maxCatchUp);
    RunsThatMany(missed, policy, maxCatchUp);
    PartitionSplits(missed, policy, maxCatchUp);
    Parts(p.skip, p.run, Sorted(missed));
  }

  // ---- One sweep of one due schedule ----

  datatype Sweep = Sweep(pending: seq<int>, skipped: seq<int>, row: Schedule)

  function Max(a: int, b: int): int { if a > b then a else b }

  /** Record the missed ticks and move the timeline past now. */
  ghost function SweepDue(next: Recurrence, v: Version, row: Schedule, now: int): (r: Sweep)
    requires Forward(next) && row.nextRunAt.Some?
  {
    var due := row.nextRunAt.value;
    var p := PartitionCatchUp(FirstOf(AllTicks(next, due, now), MAX_LOOP), v.policy, v.maxCatchUp);
    var latest := if p.run == [] then due else p.run[|p.run| - 1];
    var nextDue := next(Max(latest, now));
    Sweep(p.run, p.skip,
          row.(lastRunAt := Some(latest), nextRunAt := nextDue,
               status := if nextDue.None? then Completed else row.status))
  }

  method MaterializeDue(next: Recurrence, v: Version, row: Schedule, now: int) returns (r: Sweep)
    requires Forward(next) && row.nextRunAt.Some?
    ensures r == SweepDue(next, v, row, now)
  {
    var due := row.nextRunAt.value;
    var missed := CollectMissedTicks(next, due, now);
    var p := PartitionCatchUp(missed, v.policy, v.maxCatchUp);
    var latest := due;
    for i := 0 to |p.run|
      invariant latest == if i == 0 then due else p.run[i - 1]
    {
      latest := p.run[i];
    }
    var nextDue := next(Max(latest, now));
    var after := row.(lastRunAt := Some(latest), nextRunAt := nextDue);
    if nextDue.None? {
      after := after.(status := Completed);
    }
    r := Sweep(p.run, p.skip, after);
  }

  lemma SweepRecordsTicksInOrder(next: Recurrence, v: Version, row: Schedule, now: int)
    requires Forward(next) && row.nextRunAt.Some?
    ensures var r := SweepDue(next, v, row, now);
            r.skipped + r.pending == FirstOf(AllTicks(next, row.nextRunAt.value, now), MAX_LOOP)
  {
    var ticks := FirstOf(AllTicks(next, row.nextRunAt.value, now), MAX_LOOP);
    AllTicksIncrease(next, row.nextRunAt.value, now);
    PartitionSplits(ticks, v.policy, v.maxCatchUp);
    SortedChangesNothing(ticks);
  }

  /** The timeline moves past now and past everything the sweep recorded, also when the due instant
      lies after now. */
  lemma SweepMovesPast(next: Recurrence, v: Version, row: Schedule, now: int)
    requires Forward(next) && row.nextRunAt.Some?
    ensures var r := SweepDue(next, v, row, now).row;
            r.nextRunAt.Some? ==> r.nextRunAt.value > Max(row.nextRunAt.value, now)
  {
    if row.nextRunAt.value > now {
      assert AllTicks(next, row.nextRunAt.value, now) == [row.nextRunAt.value];
    }
  }

  /** What a sweep runs and skips: of the first fifty ticks from the due one up to now, the latest ones
      that the policy allows run, and all the earlier ones are recorded as skipped. */
  lemma SweepPartition(next: Recurrence, v: Version, row: Schedule, now: int)
    requires Forward(next) && row.nextRunAt.Some?
    ensures var ticks := FirstOf(AllTicks(next, row.nextRunAt.value, now), MAX_LOOP);
            var n := RunCount(|ticks|, v.policy, v.maxCatchUp);
            var r := SweepDue(next, v, row, now);
            r.pending == ticks[|ticks| - n..] && r.skipped == ticks[..|ticks| - n]
  {
    var ticks := FirstOf(AllTicks(next, row.nextRunAt.value, now), MAX_LOOP);
    AllTicksIncrease(next, row.nextRunAt.value, now);
    SortedChangesNothing(ticks);
    PartitionExact(ticks, v.policy, v.maxCatchUp);
  }

  /** A sweep records the due tick and every later one up to now exactly when these are at most fifty;
      a later one is neither run nor recorded as skipped, and the timeline has already moved past it. */
  lemma SweepRecordsAllTicksIff(next: Recurrence, v: Version, row: Schedule, now: int)
    requires Forward(next) && row.nextRunAt.Some?
    ensures var all := AllTicks(next, row.nextRunAt.value, now);
            var r := SweepDue(next, v, row, now);
            && (r.skipped + r.pending == all <==> |all| <= MAX_LOOP)
            && (forall i | MAX_LOOP <= i < |all| :: all[i] !in r.skipped + r.pending && all[i] <= now)
            && (r.row.nextRunAt.Some? ==> r.row.nextRunAt.value > Max(row.nextRunAt.value, now))
  {
    AllTicksIncrease(next, row.nextRunAt.value, now);
    SweepRecordsTicksInOrder(next, v, row, now);
    SweepMovesPast(next, v, row, now);
  }

  /** RUN_LATEST_ONLY runs the latest missed tick exactly under the same condition. */
  lemma LatestOnlyRunsLatestIff(next: Recurrence, v: Version, row: Schedule, now: int)
    requires Forward(next) && row.nextRunAt.Some? && v.policy.RunLatestOnly?
    ensures var all := AllTicks(next, row.nextRunAt.value, now);
            && SweepDue(next, v, row, now).pending == [all[(if |all| <= MAX_LOOP then |all| else MAX_LOOP) - 1]]
            && (SweepDue(next, v, row, now).pending == [all[|all| - 1]] <==> |all| <= MAX_LOOP)
  {
    AllTicksIncrease(next, row.nextRunAt.value, now);
    SortedChangesNothing(FirstOf(AllTicks(next, row.nextRunAt.value, now), MAX_LOOP));
  }

  lemma NothingToRunIff(ticks: seq<int>, policy: CatchUpPolicy, maxCatchUp: int)
    requires ticks != []
    ensures PartitionCatchUp(ticks, policy, maxCatchUp).run == [] <==> policy.SkipMissed?
  {
    assert |Sorted(ticks)| == |ticks|;
  }

  /** SKIP_MISSED, the default policy, also skips the tick that is just due: such a schedule
      never runs anything, however punctual the sweep. */
  lemma SkipMissedNeverRuns(next: Recurrence, v: Version, row: Schedule, now: int)
    requires Forward(next) && row.nextRunAt.Some?
    ensures SweepDue(next, v, row, now).pending == [] <==> v.policy.SkipMissed?
  {
    AllTicksIncrease(next, row.nextRunAt.value, now);
    NothingToRunIff(FirstOf(AllTicks(next, row.nextRunAt.value, now), MAX_LOOP), v.policy, v.maxCatchUp);
  }

  lemma Distribute(i: int, d: int)
    ensures d + (i - 1) * d == i * d
  {
  }

  /** The k-th tick after a reference. */
  function NthTick(next: Recurrence, ref: int, k: nat): Option<int> {
    if k == 0 then Some(ref)
    else
      match NthTick(next, ref, k - 1)
      case None => None
      case Some(t) => next(t)
  }

  /** Seen from before its start an interval schedule ticks at the start, else one interval later, then
      once per interval, and never after its end. */
  lemma {:induction false} IntervalRuns(interval: int, start: int, end: Option<int>, ref: int, k: nat)
    requires interval >= 60
    ensures var n := (if ref < start then start else ref + interval) + k * interval;
            NthTick(IntervalRule(interval, start, end), ref, k + 1) ==
            if end.None? || n <= end.value then Some(n) else None
  {
    if k > 0 {
      IntervalRuns(interval, start, end, ref, k - 1);
      assert (k - 1) * interval + interval == k * interval;
    }
  }

  /** An open-ended interval schedule has one tick per interval, as many as fit. */
  lemma {:induction false} IntervalTicks(interval: int, start: int, first: int, upTo: int)
    requires interval >= MINIMUM_INTERVAL_SECONDS && start <= first <= upTo
    ensures var all := AllTicks(IntervalRule(interval, start, None), first, upTo);
            && (|all| - 1) * interval <= upTo - first < |all| * interval
            && forall i | 0 <= i < |all| :: all[i] == first + i * interval
    decreases upTo - first
  {
    var next := IntervalRule(interval, start, None);
    var all := AllTicks(next, first, upTo);
    if first + interval <= upTo {
      IntervalTicks(interval, start, first + interval, upTo);
      var rest := AllTicks(next, first + interval, upTo);
      assert all == [first] + rest;
      Distribute(|rest|, interval);
      Distribute(|all|, interval);
      forall i | 0 < i < |all| ensures all[i] == first + i * interval {
        assert all[i] == rest[i - 1];
        Distribute(i, interval);
      }
    } else {
      assert all == [first];
    }
  }

  /** A minute schedule due at 0 and swept at 3000 has fifty-one ticks: the one at 3000 is neither run
      nor recorded, and RUN_LATEST_ONLY runs the one at 2940. */
  lemma FiftyOneTicks(v: Version, row: Schedule)
    requires row == Schedule(Active, Some(0), 0, None, None, Some(0))
    ensures var next, r := IntervalRule(60, 0, None), SweepDue(IntervalRule(60, 0, None), v, row, 3000);
            && 3000 in AllTicks(next, 0, 3000) && 3000 !in r.skipped + r.pending && r.row.nextRunAt == Some(3060)
            && (v.policy.RunLatestOnly? ==> r.pending == [2940])
  {
    var next := IntervalRule(60, 0, None);
    var all := AllTicks(next, 0, 3000);
    IntervalTicks(60, 0, 0, 3000);
    assert |all| == 51 && all[50] == 3000 && all[49] == 2940;
    SweepRecordsAllTicksIff(next, v, row, 3000);
    SweepRecordsTicksInOrder(next, v, row, 3000);
    if v.policy.RunLatestOnly? {
      LatestOnlyRunsLatestIff(next, v, row, 3000);
    }
    LatestNotAfter(next, v, row, 3000);
  }

  predicate InOrder(ticks: seq<int>, due: int, bound: int) {
    && (forall i, j | 0 <= i < j < |ticks| :: ticks[i] < ticks[j])
    && (forall i | 0 <= i < |ticks| :: due <= ticks[i] <= bound)
  }

  /** The ticks that a sweep records: in order, from the due instant up to now. */
  lemma SweptTicks(next: Recurrence, due: int, now: int)
    requires Forward(next)
    ensures InOrder(FirstOf(AllTicks(next, due, now), MAX_LOOP), due, Max(due, now))
  {
    AllTicksIncrease(next, due, now);
  }

  lemma LastOf(a: seq<int>, b: seq<int>, all: seq<int>)
    requires a + b == all && b != []
    ensures all != [] && b[|b| - 1] == all[|all| - 1]
  {
  }

  /** With the due instant not after now, the next run is the first one after now. */
  lemma LatestNotAfter(next: Recurrence, v: Version, row: Schedule, now: int)
    requires Forward(next) && row.nextRunAt.Some? && row.nextRunAt.value <= now
    ensures SweepDue(next, v, row, now).row.nextRunAt == next(now)
  {
    var r := SweepDue(next, v, row, now);
    if r.pending != [] {
      assert r.pending[|r.pending| - 1] <= now by {
        SweepRecordsTicksInOrder(next, v, row, now);
        SweptTicks(next, row.nextRunAt.value, now);
        LastOf(r.skipped, r.pending, FirstOf(AllTicks(next, row.nextRunAt.value, now), MAX_LOOP));
      }
    }
  }

  // ---- The lifecycle ----

  /** A schedule, the instants recorded for it, and the database clock. */
  datatype Timeline = Timeline(row: Schedule, recorded: seq<int>, clock: int)

  /** An eligible target (and payload) passes the validation that comes before the change. The sweep
      reads the clock first; its query for due schedules compares with a later reading. */
  datatype Operation =
    | Activate(eligible: bool)
    | Pause
    | Resume
    | Cancel
    | Edit(eligible: bool, endTime: Option<int>, next: Recurrence)
    | DueSweep(version: Version, queried: int)

  datatype Outcome = Done | Rejected | ConstraintError

  /** A commit checks the row; a refused commit leaves everything as it was. */
  function Save(t: Timeline, row: Schedule): (Timeline, Outcome) {
    if ScheduleRowOk(row) then (t.(row := row), Done) else (t, ConstraintError)
  }

  /** One operation at the current clock under the recurrence of the current version. */
  ghost function Operate(t: Timeline, next: Recurrence, op: Operation, gate: bool): (r: (Timeline, Outcome))
    requires Forward(next) && (op.Edit? ==> Forward(op.next))
  {
    var row := t.row;
    match op
    case Activate(eligible) =>
      if gate && (row.status.Draft? || row.status.Paused?) && eligible
      then Save(t, row.(status := Active, nextRunAt := next(t.clock))) else (t, Rejected)
    case Pause =>
      if row.status.Active? then Save(t, row.(status := Paused, nextRunAt := None)) else (t, Rejected)
    case Resume =>
      if gate && row.status.Paused?
      then Save(t, row.(status := Active, nextRunAt := next(t.clock))) else (t, Rejected)
    case Cancel => Save(t, row.(status := Cancelled, nextRunAt := None))
    case Edit(eligible, endTime, newNext) =>
      if row.status.Completed? || row.status.Cancelled? || row.status.Archived? || !eligible then (t, Rejected)
      else
        Save(t, row.(endTime := if endTime.Some? then endTime else row.endTime,
                     nextRunAt := if row.status.Active? then newNext(t.clock) else row.nextRunAt))
    case DueSweep(v, queried) =>
      var later := Max(t.clock, queried);
      if gate && row.status.Active? && row.nextRunAt.Some? && row.nextRunAt.value <= later then
        var s := SweepDue(next, v, row, t.clock);
        (Timeline(s.row, t.recorded + s.skipped + s.pending, later), Done)
      else (t, Done)
  }

  /** A step of a run: the operation, the clock it happens at, the gate and the recurrence in force. */
  datatype Step = Step(op: Operation, now: int, gate: bool, next: Recurrence)

  ghost predicate StepOk(s: Step) {
    Forward(s.next) && (s.op.Edit? ==> Forward(s.op.next))
  }

  ghost function RunSteps(t: Timeline, steps: seq<Step>): (r: Timeline)
    requires forall s <- steps :: StepOk(s)
    decreases |steps|
  {
    if steps == [] then t
    else
      assert steps[0] in steps && StepOk(steps[0]);
      RunSteps(Operate(t.(clock := Max(t.clock, steps[0].now)), steps[0].next, steps[0].op, steps[0].gate).0, steps[1..])
  }

  /** Recorded instants never lie ahead of the clock or of the next run, and never repeat. */
  ghost predicate Consistent(t: Timeline) {
    && ScheduleRowOk(t.row)
    && (forall i, j | 0 <= i < j < |t.recorded| :: t.recorded[i] < t.recorded[j])
    && (forall x <- t.recorded :: x <= t.clock)
    && (t.row.nextRunAt.Some? ==> forall x <- t.recorded :: x < t.row.nextRunAt.value)
  }

  lemma AppendIncreasing(a: seq<int>, b: seq<int>, bound: int)
    requires forall i, j | 0 <= i < j < |a| :: a[i] < a[j]
    requires forall i, j | 0 <= i < j < |b| :: b[i] < b[j]
    requires forall x <- a :: x < bound
    requires b != [] ==> b[0] >= bound
    ensures forall i, j | 0 <= i < j < |a + b| :: (a + b)[i] < (a + b)[j]
  {
    forall i, j | 0 <= i < j < |a + b| ensures (a + b)[i] < (a + b)[j] {
      if i < |a| <= j {
        assert a[i] in a && b[0] <= b[j - |a|];
      }
    }
  }

  lemma RecordedUpTo(a: seq<int>, b: seq<int>, clock: int)
    requires (forall x <- a :: x <= clock) && (forall i | 0 <= i < |b| :: b[i] <= clock)
    ensures forall x <- a + b :: x <= clock
  {
  }

  lemma SweptRowOk(next: Recurrence, v: Version, row: Schedule, now: int)
    requires Forward(next) && row.nextRunAt.Some? && ScheduleRowOk(row)
    ensures ScheduleRowOk(SweepDue(next, v, row, now).row)
  {
  }

  lemma RecordedAfterSweep(recorded: seq<int>, ticks: seq<int>, due: int, clock: int)
    requires forall i, j | 0 <= i < j < |recorded| :: recorded[i] < recorded[j]
    requires forall i, j | 0 <= i < j < |ticks| :: ticks[i] < ticks[j]
    requires (forall x <- recorded :: x < due && x <= clock) && (forall i | 0 <= i < |ticks| :: due <= ticks[i] <= clock)
    ensures var all := recorded + ticks;
            && (forall i, j | 0 <= i < j < |all| :: all[i] < all[j])
            && forall x <- all :: x <= clock
  {
    AppendIncreasing(recorded, ticks, due);
    RecordedUpTo(recorded, ticks, clock);
  }

  lemma SweptIsConsistent(t: Timeline, r: Sweep, bound: int, later: int)
    requires Consistent(t) && t.row.nextRunAt.Some? && t.clock <= later && t.row.nextRunAt.value <= bound <= later
    requires InOrder(r.skipped + r.pending, t.row.nextRunAt.value, bound)
    requires ScheduleRowOk(r.row) && (r.row.nextRunAt.Some? ==> r.row.nextRunAt.value > bound)
    ensures Consistent(Timeline(r.row, t.recorded + r.skipped + r.pending, later))
  {
    RecordedAfterSweep(t.recorded, r.skipped + r.pending, t.row.nextRunAt.value, later);
    assert t.recorded + r.skipped + r.pending == t.recorded + (r.skipped + r.pending);
  }

  lemma SweptInOrder(next: Recurrence, v: Version, row: Schedule, now: int)
    requires Forward(next) && row.nextRunAt.Some?
    ensures var r := SweepDue(next, v, row, now);
            InOrder(r.skipped + r.pending, row.nextRunAt.value, Max(row.nextRunAt.value, now))
  {
    SweepRecordsTicksInOrder(next, v, row, now);
    SweptTicks(next, row.nextRunAt.value, now);
  }

  lemma SweepKeepsConsistent(t: Timeline, next: Recurrence, v: Version, queried: int, gate: bool)
    requires Forward(next) && Consistent(t)
    ensures Consistent(Operate(t, next, DueSweep(v, queried), gate).0)
  {
    var later := Max(t.clock, queried);
    if gate && t.row.status.Active? && t.row.nextRunAt.Some? && t.row.nextRunAt.value <= later {
      SweptInOrder(next, v, t.row, t.clock);
      SweptRowOk(next, v, t.row, t.clock);
      SweepMovesPast(next, v, t.row, t.clock);
      SweptIsConsistent(t, SweepDue(next, v, t.row, t.clock), Max(t.row.nextRunAt.value, t.clock), later);
    }
  }

  lemma OperationKeepsConsistent(t: Timeline, next: Recurrence, op: Operation, gate: bool)
    requires Forward(next) && (op.Edit? ==> Forward(op.next)) && Consistent(t)
    ensures Consistent(Operate(t, next, op, gate).0)
  {
    if op.DueSweep? {
      SweepKeepsConsistent(t, next, op.version, op.queried, gate);
    }
  }

  /** Over any lifecycle no instant of a schedule is ever recorded twice, so materialisation can
      never run into the unique key on schedule and instant. */
  lemma {:induction false} NoInstantRecordedTwice(t: Timeline, steps: seq<Step>)
    requires Consistent(t) && forall s <- steps :: StepOk(s)
    ensures var r := RunSteps(t, steps);
            && Consistent(r)
            && forall i, j | 0 <= i < |r.recorded| && 0 <= j < |r.recorded| && r.recorded[i] == r.recorded[j] :: i == j
    decreases |steps|
  {
    if steps != [] {
      assert steps[0] in steps && StepOk(steps[0]);
      var later := t.(clock := Max(t.clock, steps[0].now));
      OperationKeepsConsistent(later, steps[0].next, steps[0].op, steps[0].gate);
      NoInstantRecordedTwice(Operate(later, steps[0].next, steps[0].op, steps[0].gate).0, steps[1..]);
    }
  }

  // ---- What pausing, cancelling and the gate mean ----

  /** A run goes on with one more operation, at a clock that never goes back. */
  lemma {:induction false} RunGoesOn(t: Timeline, steps: seq<Step>, n: nat)
    requires |steps| == n + 1 && (forall x <- steps :: StepOk(x)) && StepOk(steps[n])
    ensures var before, s := RunSteps(t, steps[..n]), steps[n];
            RunSteps(t, steps) ==
            Operate(before.(clock := if s.now > before.clock then s.now else before.clock), s.next, s.op, s.gate).0
    decreases n
  {
    assert steps[0] in steps && StepOk(steps[0]);
    if n == 0 {
      assert steps[1..] == [];
    } else {
      var first := Operate(t.(clock := Max(t.clock, steps[0].now)), steps[0].next, steps[0].op, steps[0].gate).0;
      assert steps[1..][..n - 1] == steps[..n][1..];
      RunGoesOn(first, steps[1..], n - 1);
    }
  }

  /** What a sweep makes of a schedule that is due. */
  ghost predicate Swept(row: Schedule, after: Schedule, ticks: seq<int>, policy: CatchUpPolicy, now: int) {
    && row.nextRunAt.Some? && ticks != []
    && after == row.(lastRunAt := after.lastRunAt, nextRunAt := after.nextRunAt, status := after.status)
    && (after.nextRunAt.Some? ==> after.nextRunAt.value > now)
    && after.status == (if after.nextRunAt.None? then Completed else row.status)
    && after.lastRunAt == Some(if policy.SkipMissed? then row.nextRunAt.value else ticks[|ticks| - 1])
  }

  lemma LastTick(ticks: seq<int>, v: Version, s: Sweep)
    requires ticks != [] && s.skipped + s.pending == ticks
    requires |s.pending| == RunCount(|ticks|, v.policy, v.maxCatchUp)
    ensures s.pending == [] <==> v.policy.SkipMissed?
    ensures s.pending != [] ==> s.pending[|s.pending| - 1] == ticks[|ticks| - 1]
  {
  }

  lemma SweptRow(next: Recurrence, v: Version, row: Schedule, now: int, ticks: seq<int>, s: Sweep)
    requires Forward(next) && row.nextRunAt.Some? && ticks == FirstOf(AllTicks(next, row.nextRunAt.value, now), MAX_LOOP)
    requires s == SweepDue(next, v, row, now)
    ensures Swept(row, s.row, ticks, v.policy, now) && s.skipped + s.pending == ticks
  {
    assert ticks != [] by {
      AllTicksIncrease(next, row.nextRunAt.value, now);
    }
    SweepRecordsTicksInOrder(next, v, row, now);
    assert |s.pending| == RunCount(|ticks|, v.policy, v.maxCatchUp) by {
      SweepPartition(next, v, row, now);
    }
    LastTick(ticks, v, s);
    SweepMovesPast(next, v, row, now);
  }

  lemma SweepOperates(t: Timeline, next: Recurrence, v: Version, queried: int, gate: bool, s: Sweep, due: bool)
    requires Forward(next) && due == (gate && t.row.status.Active? && t.row.nextRunAt.Some?
                                      && (t.row.nextRunAt.value <= t.clock || t.row.nextRunAt.value <= queried))
    requires due ==> s == SweepDue(next, v, t.row, t.clock)
    ensures var clock := if queried > t.clock then queried else t.clock;
            Operate(t, next, DueSweep(v, queried), gate) ==
            (if due then Timeline(s.row, t.recorded + (s.skipped + s.pending), clock) else t, Done)
  {
    assert t.recorded + s.skipped + s.pending == t.recorded + (s.skipped + s.pending);
  }

  /** A sweep does nothing unless the gate is open and an active schedule is due at one of its two
      readings of the clock; then it records the first fifty ticks, and the next run lies ahead or the
      schedule is completed. */
  lemma DueSweepExact(t: Timeline, next: Recurrence, v: Version, queried: int, gate: bool)
    requires Forward(next)
    ensures var (r, outcome) := Operate(t, next, DueSweep(v, queried), gate);
            && outcome.Done?
            && if gate && t.row.status.Active? && t.row.nextRunAt.Some?
                  && (t.row.nextRunAt.value <= t.clock || t.row.nextRunAt.value <= queried) then
                 var ticks := FirstOf(AllTicks(next, t.row.nextRunAt.value, t.clock), 50);
                 && r.recorded == t.recorded + ticks && r.clock == (if queried > t.clock then queried else t.clock)
                 && Swept(t.row, r.row, ticks, v.policy, t.clock)
               else r == t
  {
    var due := gate && t.row.status.Active? && t.row.nextRunAt.Some?
               && (t.row.nextRunAt.value <= t.clock || t.row.nextRunAt.value <= queried);
    if due {
      var s := SweepDue(next, v, t.row, t.clock);
      SweptRow(next, v, t.row, t.clock, FirstOf(AllTicks(next, t.row.nextRunAt.value, t.clock), MAX_LOOP), s);
      SweepOperates(t, next, v, queried, gate, s, true);
    } else {
      SweepOperates(t, next, v, queried, gate, Sweep([], [], t.row), false);
    }
  }

  /** Pausing and cancelling: from which states, and what is left to run. */
  lemma StoppingExact(t: Timeline, next: Recurrence, gate: bool)
    requires Forward(next) && Consistent(t)
    ensures var (r, outcome) := Operate(t, next, Pause, gate);
            && (outcome.Done? <==> t.row.status.Active?)
            && (outcome.Done? ==> r.row.status == Paused && r.row.nextRunAt == None && SameBut(t, r))
            && (!outcome.Done? ==> r == t)
    ensures var (r, outcome) := Operate(t, next, Cancel, gate);
            outcome.Done? && r.row.status == Cancelled && r.row.nextRunAt == None && SameBut(t, r)
  {
  }

  /** Neither the times nor the version of the schedule changed, and nothing was recorded. */
  predicate SameBut(t: Timeline, r: Timeline) {
    && r.recorded == t.recorded && r.clock == t.clock
    && r.row.currentVersion == t.row.currentVersion && r.row.lastRunAt == t.row.lastRunAt
    && r.row.startTime == t.row.startTime && r.row.endTime == t.row.endTime
  }

  /** An edit changes the end and, of an active schedule only, the next run, which lies ahead again. */
  lemma EditExact(t: Timeline, next: Recurrence, gate: bool, eligible: bool, endTime: Option<int>, newNext: Recurrence)
    requires Forward(next) && Forward(newNext) && Consistent(t)
    ensures var (r, outcome) := Operate(t, next, Edit(eligible, endTime, newNext), gate);
            var end := if endTime.Some? then endTime else t.row.endTime;
            && (outcome.Rejected? <==> !eligible || Terminal(t.row.status))
            && (outcome.ConstraintError? <==>
                  && !outcome.Rejected?
                  && ((end.Some? && end.value <= t.row.startTime) || (t.row.status.Active? && newNext(t.clock).None?)))
            && (!outcome.Done? ==> r == t)
            && (outcome.Done? ==>
                  && r.row == t.row.(endTime := r.row.endTime, nextRunAt := r.row.nextRunAt) && r.recorded == t.recorded
                  && r.row.endTime == end
                  && r.row.nextRunAt == if t.row.status.Active? then newNext(t.clock) else t.row.nextRunAt)
  {
  }

  predicate Terminal(status: ScheduleStatus) {
    status.Completed? || status.Cancelled? || status.Archived?
  }

  /** A completed, cancelled or archived schedule never runs again, whatever is tried. */
  lemma {:induction false} TerminalForGood(t: Timeline, steps: seq<Step>)
    requires Terminal(t.row.status) && forall s <- steps :: StepOk(s)
    ensures var r := RunSteps(t, steps); Terminal(r.row.status) && r.recorded == t.recorded
    decreases |steps|
  {
    if steps != [] {
      assert steps[0] in steps && StepOk(steps[0]);
      var later := t.(clock := Max(t.clock, steps[0].now));
      TerminalForGood(Operate(later, steps[0].next, steps[0].op, steps[0].gate).0, steps[1..]);
    }
  }

  /** With the gate closed nothing is activated, resumed or recorded. */
  lemma {:induction false} ClosedGate(t: Timeline, steps: seq<Step>)
    requires forall s <- steps :: StepOk(s) && !s.gate
    ensures var r := RunSteps(t, steps); r.recorded == t.recorded && (r.row.status.Active? ==> t.row.status.Active?)
    decreases |steps|
  {
    if steps != [] {
      assert steps[0] in steps && StepOk(steps[0]);
      var later := t.(clock := Max(t.clock, steps[0].now));
      ClosedGate(Operate(later, steps[0].next, steps[0].op, steps[0].gate).0, steps[1..]);
    }
  }

  /** Whatever is recorded from here on lies after the bound. */
  ghost predicate Ahead(t: Timeline, bound: int) {
    bound <= t.clock && (t.row.nextRunAt.Some? ==> t.row.nextRunAt.value > bound)
  }

  lemma OperationStaysAhead(t: Timeline, next: Recurrence, op: Operation, gate: bool, bound: int)
    requires Forward(next) && (op.Edit? ==> Forward(op.next)) && Ahead(t, bound)
    ensures var r := Operate(t, next, op, gate).0;
            && Ahead(r, bound) && |t.recorded| <= |r.recorded| && r.recorded[..|t.recorded|] == t.recorded
            && forall i | |t.recorded| <= i < |r.recorded| :: r.recorded[i] > bound
  {
    if op.DueSweep? && t.row.nextRunAt.Some? {
      SweepMovesPast(next, op.version, t.row, t.clock);
      SweptInOrder(next, op.version, t.row, t.clock);
      var s := SweepDue(next, op.version, t.row, t.clock);
      assert t.recorded + s.skipped + s.pending == t.recorded + (s.skipped + s.pending);
    }
  }

  lemma {:induction false} StaysAhead(t: Timeline, steps: seq<Step>, bound: int)
    requires Ahead(t, bound) && forall s <- steps :: StepOk(s)
    ensures var r := RunSteps(t, steps);
            && |t.recorded| <= |r.recorded| && r.recorded[..|t.recorded|] == t.recorded
            && forall i | |t.recorded| <= i < |r.recorded| :: r.recorded[i] > bound
    decreases |steps|
  {
    if steps != [] {
      assert steps[0] in steps && StepOk(steps[0]);
      var later := t.(clock := Max(t.clock, steps[0].now));
      var mid := Operate(later, steps[0].next, steps[0].op, steps[0].gate).0;
      OperationStaysAhead(later, steps[0].next, steps[0].op, steps[0].gate, bound);
      StaysAhead(mid, steps[1..], bound);
      var r := RunSteps(mid, steps[1..]);
      assert r.recorded[..|t.recorded|] == r.recorded[..|mid.recorded|][..|t.recorded|];
      forall i | |t.recorded| <= i < |r.recorded| ensures r.recorded[i] > bound {
        if i < |mid.recorded| {
          assert r.recorded[i] == r.recorded[..|mid.recorded|][i];
        }
      }
    }
  }

  /** Time spent paused is not downtime: whatever happens after a resume, no instant up to the resume
      is recorded any more, neither to run nor as skipped. */
  lemma PausedTimeIsNotMissed(t: Timeline, next: Recurrence, steps: seq<Step>)
    requires Forward(next) && Consistent(t) && Operate(t, next, Resume, true).1.Done? && forall s <- steps :: StepOk(s)
    ensures var r := RunSteps(Operate(t, next, Resume, true).0, steps);
            && |t.recorded| <= |r.recorded| && r.recorded[..|t.recorded|] == t.recorded
            && forall i | |t.recorded| <= i < |r.recorded| :: r.recorded[i] > t.clock
  {
    StaysAhead(Operate(t, next, Resume, true).0, steps, t.clock);
  }

  /** Activating (or resuming) an expired schedule does not complete it: the commit fails on
      chk_schedule_active_executable. It succeeds exactly when a next run exists. */
  lemma ActivationCommitsIff(t: Timeline, next: Recurrence, gate: bool, eligible: bool)
    requires Forward(next) && Consistent(t) && t.row.currentVersion.Some?
    ensures Operate(t, next, Activate(eligible), gate).1.Done?
            <==> gate && (t.row.status.Draft? || t.row.status.Paused?) && eligible && next(t.clock).Some?
    ensures Operate(t, next, Resume, gate).1.Done?
            <==> gate && t.row.status.Paused? && next(t.clock).Some?
    ensures Operate(t, next, Activate(eligible), gate).1.Done? ==>
              var r := Operate(t, next, Activate(eligible), gate).0.row;
              r.status.Active? && r.nextRunAt.Some? && r.nextRunAt.value > t.clock
  {
  }

  /** A schedule paused until after its end: neither operation activates or completes it, both run
      into the constraint and leave it paused. */
  lemma ExpiredCannotResume(t: Timeline)
    requires t == Timeline(Schedule(Paused, Some(0), 0, Some(100), None, None), [], 200)
    ensures Consistent(t)
    ensures var next := IntervalRule(60, 0, Some(100));
            && Operate(t, next, Activate(true), true) == (t, ConstraintError)
            && Operate(t, next, Resume, true) == (t, ConstraintError)
  {
  }
}
