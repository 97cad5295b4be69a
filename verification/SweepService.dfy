/** The dispatch adapter and the stale-row reconciler as the services run them: on one session,
    statement by statement, with a commit at the end. */
module SweepService {
  import opened Wrappers
  import opened ScheduleStore
  import opened SweepProtocol

  datatype Reason = DispatchedNow | AlreadyBound | Raised

  predicate FreshKeys(t: Tables, mission: Id, binding: Id) {
    mission !in t.missions && binding !in t.missionBindings
  }

  /** A transaction that has failed half way never commits. */
  lemma {:induction false} PrefixFails(t: Tables, statements: seq<Statement>, i: nat)
    requires i <= |statements| && Run(Progress(t, {}), statements[..i]).None?
    ensures Transaction(t, statements).None?
    decreases |statements| - i
  {
    if i == |statements| {
      assert statements[..i] == statements;
    } else {
      RunAppend(Progress(t, {}), statements[..i], statements[i]);
      assert statements[..i] + [statements[i]] == statements[..i + 1];
      PrefixFails(t, statements, i + 1);
    }
  }

  /** Create, plan, bind and mark in one transaction, or report the mission that is bound already.
      payloadOk and plans say whether validating the payload and planning the mission raise. */
  method Dispatch(session: Session, o: Id, newMission: Id, newBinding: Id, payloadOk: bool, plans: bool)
    returns (mission: Option<Id>, reason: Reason)
    requires session.Valid() && session.statements == [] && o in session.committed.occurrences
    requires session.committed.occurrences[o].target.StandaloneMission?
    modifies session
    ensures session.Valid() && session.statements == []
    ensures reason.AlreadyBound? <==> HasMission(old(session.committed), o)
    ensures reason.DispatchedNow? <==>
              && !HasMission(old(session.committed), o) && payloadOk && plans
              && FreshKeys(old(session.committed), newMission, newBinding)
    ensures session.committed == if reason.DispatchedNow? then DispatchEffect(old(session.committed), o, newMission, newBinding)
                                 else old(session.committed)
    ensures mission.None? <==> reason.Raised?
    ensures mission.Some? ==> HasBinding(session.committed, o, mission.value)
  {
    var t := session.committed;
    assert session.working == t;
    if HasMission(t, o) {
      var b :| b in t.missionBindings && t.missionBindings[b].occurrenceId == o;
      mission, reason := Some(t.missionBindings[b].missionId), AlreadyBound;
      assert t.missionBindings[b] == MissionBinding(o, mission.value);
      return;
    }
    mission, reason := None, Raised;
    if payloadOk {
      CommitsIffFresh(t, o, newMission, newBinding);
      var ok := CreateBindAndMark(session, o, newMission, newBinding, plans);
      if ok {
        mission, reason := Some(newMission), DispatchedNow;
        assert session.committed.missionBindings[newBinding] == MissionBinding(o, newMission);
      }
    }
  }

  /** The guarded part: any failure rolls the whole transaction back. */
  method CreateBindAndMark(session: Session, o: Id, newMission: Id, newBinding: Id, plans: bool) returns (ok: bool)
    requires session.Valid() && session.statements == [] && session.working == session.committed
    requires o in session.committed.occurrences
    modifies session
    ensures session.Valid() && session.statements == []
    ensures var t := old(session.committed);
            var done := Transaction(t, DispatchStatements(t, o, newMission, newBinding));
            (ok <==> plans && done.Some?) && session.committed == if ok then done.value else t
  {
    ghost var all := DispatchStatements(session.committed, o, newMission, newBinding);
    ok := session.Perform(InsertMission(newMission, Mission(Some(o))));
    assert session.statements == all[..1];
    if ok && plans {
      ok := BindAndMark(session, o, newMission, newBinding);
    } else {
      if !ok { PrefixFails(session.committed, all, 1); }
      session.Rollback();
      ok := false;
    }
  }

  method BindAndMark(session: Session, o: Id, mission: Id, newBinding: Id) returns (ok: bool)
    requires session.Valid() && o in session.committed.occurrences
    requires session.statements == DispatchStatements(session.committed, o, mission, newBinding)[..1]
    modifies session
    ensures session.Valid() && session.statements == []
    ensures var t := old(session.committed);
            var done := Transaction(t, DispatchStatements(t, o, mission, newBinding));
            (ok <==> done.Some?) && session.committed == if ok then done.value else t
  {
    ghost var all := DispatchStatements(session.committed, o, mission, newBinding);
    var row := session.committed.occurrences[o].(status := Dispatched, targetId := Some(mission));
    ok := session.Perform(InsertMissionBinding(newBinding, MissionBinding(o, mission)));
    assert session.statements == all[..2];
    if ok {
      ok := session.Perform(UpdateOccurrence(o, row));
      assert session.statements == all == all[..3];
    }
    if ok {
      ok := session.Commit();
    } else {
      PrefixFails(session.committed, all, |session.statements|);
      session.Rollback();
    }
  }

  lemma CommitsIffFresh(t: Tables, o: Id, mission: Id, binding: Id)
    requires Integrity(t) && o in t.occurrences && !HasMission(t, o)
    ensures Transaction(t, DispatchStatements(t, o, mission, binding)) ==
            if FreshKeys(t, mission, binding) then Some(DispatchEffect(t, o, mission, binding)) else None
  {
    if FreshKeys(t, mission, binding) {
      DispatchExact(t, o, mission, binding);
    } else if Transaction(t, DispatchStatements(t, o, mission, binding)).Some? {
      DispatchNeedsFreshKeys(t, o, mission, binding);
      assert false;
    }
  }

  /** Dispatching an occurrence a second time hands back the first mission and writes nothing,
      whether or not the second attempt could have created one. */
  method DispatchTwice(session: Session, o: Id, m1: Id, b1: Id, m2: Id, b2: Id,
                       payloadOk: bool, plans: bool, laterPayloadOk: bool, laterPlans: bool)
    returns (first: Option<Id>, second: Option<Id>)
    requires session.Valid() && session.statements == [] && o in session.committed.occurrences
    requires session.committed.occurrences[o].target.StandaloneMission?
    modifies session
    ensures first.Some? ==> second == first
    ensures first.Some? ==> session.committed.missions.Keys <= old(session.committed).missions.Keys + {m1}
  {
    var reason;
    first, reason := Dispatch(session, o, m1, b1, payloadOk, plans);
    ghost var between := session.committed;
    if first.Some? {
      ghost var c :| c in between.missionBindings && between.missionBindings[c] == MissionBinding(o, first.value);
      assert HasMission(between, o);
    }
    second, reason := Dispatch(session, o, m2, b2, laterPayloadOk, laterPlans);
    if first.Some? {
      SameMission(between, o, first.value, second.value);
    }
  }

  /** The row a stale DISPATCHING occurrence is left with. */
  ghost function StaleOutcome(t: Tables, o: Id, maxAttempts: int): Occurrence
    requires o in t.occurrences
  {
    if Bound(t, o) then t.occurrences[o].(status := Dispatched, targetId := Some(DownstreamOf(t, o)))
    else t.occurrences[o].(status := if t.occurrences[o].attempts >= maxAttempts then Failed else Pending)
  }

  ghost predicate PartlyReconciled(t: Tables, u: Tables, done: set<Id>, maxAttempts: int) {
    && u == t.(occurrences := u.occurrences)
    && u.occurrences.Keys == t.occurrences.Keys
    && forall o <- t.occurrences ::
         u.occurrences[o] == if o in done then StaleOutcome(t, o, maxAttempts) else t.occurrences[o]
  }

  /** An open transaction that has only rewritten rows so far. */
  ghost predicate Clean(session: Session)
    reads session
  {
    session.Valid() && !session.aborted && session.touched == {} && Immediate(session.working)
  }

  /** One row: look for its binding, then write its new status. */
  method ReconcileRow(session: Session, o: Id, maxAttempts: int) returns (gaveUp: bool)
    requires Clean(session) && o in session.working.occurrences
    modifies session
    ensures Clean(session) && session.committed == old(session.committed)
    ensures var t := old(session.working);
            session.working == t.(occurrences := t.occurrences[o := StaleOutcome(t, o, maxAttempts)])
    ensures gaveUp <==> session.working.occurrences[o].status.Failed?
  {
    var t := session.working;
    var row := t.occurrences[o];
    if Bound(t, o) {
      var target := FindDownstream(t, o);
      row := row.(status := Dispatched, targetId := Some(target));
    } else {
      row := row.(status := RetryStatus(row, maxAttempts));
    }
    gaveUp := row.status.Failed?;
    RewriteRow(session, o, row);
  }

  method RewriteRow(session: Session, o: Id, row: Occurrence)
    requires Clean(session) && o in session.working.occurrences
    requires row == session.working.occurrences[o].(status := row.status, targetId := row.targetId)
    modifies session
    ensures Clean(session) && session.committed == old(session.committed)
    ensures session.working == old(session.working).(occurrences := old(session.working).occurrences[o := row])
  {
    RowStillFits(session.working, o, row);
    RunAppend(Progress(session.committed, {}), session.statements, UpdateOccurrence(o, row));
    ExecuteExact(session.working, UpdateOccurrence(o, row));
    var ok := session.Perform(UpdateOccurrence(o, row));
  }

  /** The outcome for a row depends on that row and the bindings alone. */
  lemma SameOutcome(t: Tables, u: Tables, o: Id, maxAttempts: int)
    requires Immediate(t) && Immediate(u) && o in t.occurrences && o in u.occurrences
    requires u == t.(occurrences := u.occurrences) && u.occurrences[o] == t.occurrences[o]
    ensures StaleOutcome(u, o, maxAttempts) == StaleOutcome(t, o, maxAttempts)
  {
    if Bound(t, o) {
      match t.occurrences[o].target
      case StandaloneMission => SameMission(t, o, DownstreamOf(t, o), DownstreamOf(u, o));
      case CampaignAdmission => SameItem(t, o, DownstreamOf(t, o), DownstreamOf(u, o));
    }
  }

  function Elements(rows: seq<Id>): (r: set<Id>) {
    set o <- rows
  }

  ghost predicate DistinctRows(t: Tables, rows: seq<Id>) {
    && (forall o <- rows :: o in t.occurrences)
    && (forall i, j | 0 <= i < j < |rows| :: rows[i] != rows[j])
  }

  lemma OneMoreRow(t: Tables, u: Tables, done: set<Id>, o: Id, maxAttempts: int, row: Occurrence)
    requires PartlyReconciled(t, u, done, maxAttempts) && o in t.occurrences && row == StaleOutcome(t, o, maxAttempts)
    ensures PartlyReconciled(t, u.(occurrences := u.occurrences[o := row]), done + {o}, maxAttempts)
  {
  }

  lemma ReconciledOneMore(t: Tables, u: Tables, done: set<Id>, o: Id, maxAttempts: int)
    requires Immediate(t) && Immediate(u)
    requires PartlyReconciled(t, u, done, maxAttempts) && o in t.occurrences && o !in done
    ensures PartlyReconciled(t, u.(occurrences := u.occurrences[o := StaleOutcome(u, o, maxAttempts)]),
                             done + {o}, maxAttempts)
  {
    SameOutcome(t, u, o, maxAttempts);
    OneMoreRow(t, u, done, o, maxAttempts, StaleOutcome(t, o, maxAttempts));
  }

  lemma CountOneMore(u: Tables, v: Tables, stale: seq<Id>, i: nat, row: Occurrence)
    requires i < |stale| && DistinctRows(u, stale)
    requires v.occurrences == u.occurrences[stale[i] := row]
    ensures DistinctRows(v, stale)
    ensures CountFailed(v, stale[..i + 1]) == CountFailed(u, stale[..i]) + (if row.status.Failed? then 1 else 0)
    ensures Elements(stale[..i + 1]) == Elements(stale[..i]) + {stale[i]}
    ensures stale[i] !in Elements(stale[..i])
  {
    assert stale[i] in stale && stale[i] !in stale[..i];
    assert stale[..i + 1] == stale[..i] + [stale[i]];
    assert stale[..i + 1][..i] == stale[..i];
    SameCount(u, v, stale[..i]);
  }

  /** The first i rows of the batch are done, and failed counts those among them that gave up. */
  ghost predicate BatchDone(t: Tables, u: Tables, stale: seq<Id>, i: nat, failed: nat, maxAttempts: int) {
    && i <= |stale| && DistinctRows(u, stale)
    && PartlyReconciled(t, u, Elements(stale[..i]), maxAttempts)
    && failed == CountFailed(u, stale[..i])
  }

  lemma BatchGoesOn(t: Tables, u: Tables, v: Tables, stale: seq<Id>, i: nat, failed: nat, maxAttempts: int)
    requires Immediate(t) && Immediate(u) && i < |stale| && stale[i] in u.occurrences
    requires BatchDone(t, u, stale, i, failed, maxAttempts)
    requires v == u.(occurrences := u.occurrences[stale[i] := StaleOutcome(u, stale[i], maxAttempts)])
    ensures BatchDone(t, v, stale, i + 1, failed + (if v.occurrences[stale[i]].status.Failed? then 1 else 0), maxAttempts)
  {
    CountOneMore(u, v, stale, i, StaleOutcome(u, stale[i], maxAttempts));
    ReconciledOneMore(t, u, Elements(stale[..i]), stale[i], maxAttempts);
  }

  /** A listed row is DISPATCHED exactly when it is bound, FAILED exactly when it is unbound and its
      attempts are used up, and PENDING otherwise. */
  ghost predicate EndsAs(t: Tables, u: Tables, o: Id, maxAttempts: int) {
    && o in t.occurrences && o in u.occurrences
    && var status := u.occurrences[o].status;
       && (status.Dispatched? <==> Bound(t, o))
       && (status.Failed? <==> !Bound(t, o) && t.occurrences[o].attempts >= maxAttempts)
       && (status.Pending? <==> !Bound(t, o) && t.occurrences[o].attempts < maxAttempts)
  }

  lemma ReconciledEnds(t: Tables, u: Tables, stale: seq<Id>, maxAttempts: int)
    requires DistinctRows(t, stale) && PartlyReconciled(t, u, Elements(stale), maxAttempts)
    ensures forall o <- stale :: EndsAs(t, u, o, maxAttempts)
  {
  }

  /** Reconcile a batch of distinct stale rows in one transaction. */
  method ReconcileStale(session: Session, stale: seq<Id>, maxAttempts: int) returns (recovered: nat, failed: nat)
    requires session.Valid() && session.statements == []
    requires DistinctRows(session.committed, stale)
    requires forall o <- stale :: session.committed.occurrences[o].status.Dispatching?
    modifies session
    ensures session.Valid()
    ensures PartlyReconciled(old(session.committed), session.committed, Elements(stale), maxAttempts)
    ensures forall o <- stale :: EndsAs(old(session.committed), session.committed, o, maxAttempts)
    ensures recovered + failed == |stale|
    ensures DistinctRows(session.committed, stale) && failed == CountFailed(session.committed, stale)
  {
    ghost var t := session.committed;
    recovered, failed := 0, 0;
    for i := 0 to |stale|
      invariant Clean(session) && session.committed == t && recovered + failed == i
      invariant BatchDone(t, session.working, stale, i, failed, maxAttempts)
    {
      ghost var before := session.working;
      assert stale[i] in stale;
      var gaveUp := ReconcileRow(session, stale[i], maxAttempts);
      BatchGoesOn(t, before, session.working, stale, i, failed, maxAttempts);
      if gaveUp {
        failed := failed + 1;
      } else {
        recovered := recovered + 1;
      }
    }
    assert stale[..|stale|] == stale;
    ReconciledEnds(t, session.working, stale, maxAttempts);
    CleanCommits(session);
    var ok := session.Commit();
  }

  /** With no reference to recheck, the commit goes through. */
  lemma CleanCommits(session: Session)
    requires Clean(session)
    ensures Transaction(session.committed, session.statements) == Some(session.working)
  {
  }

  /** How many of the rows are FAILED. */
  function CountFailed(t: Tables, rows: seq<Id>): (n: nat)
    requires forall o <- rows :: o in t.occurrences
    ensures n <= |rows|
  {
    if rows == [] then 0
    else
      var last := rows[|rows| - 1];
      CountFailed(t, rows[..|rows| - 1]) + (if t.occurrences[last].status.Failed? then 1 else 0)
  }

  lemma {:induction false} SameCount(t: Tables, u: Tables, rows: seq<Id>)
    requires forall o <- rows :: o in t.occurrences && o in u.occurrences && u.occurrences[o] == t.occurrences[o]
    ensures CountFailed(u, rows) == CountFailed(t, rows)
  {
    if rows != [] {
      SameCount(t, u, rows[..|rows| - 1]);
    }
  }

  /** Read the binding row of a bound occurrence; the unique keys leave only one answer. */
  method FindDownstream(t: Tables, o: Id) returns (r: Id)
    requires Immediate(t) && o in t.occurrences && Bound(t, o)
    ensures r == DownstreamOf(t, o)
  {
    match t.occurrences[o].target
    case StandaloneMission =>
      var b :| b in t.missionBindings && t.missionBindings[b].occurrenceId == o;
      r := t.missionBindings[b].missionId;
      assert t.missionBindings[b] == MissionBinding(o, r);
      SameMission(t, o, r, DownstreamOf(t, o));
    case CampaignAdmission =>
      var b :| b in t.campaignBindings && t.campaignBindings[b].occurrenceId == o;
      r := t.campaignBindings[b].itemId;
      SameItem(t, o, r, DownstreamOf(t, o));
  }
}
