/**
 Dispatch of recurring occurrences by any number of concurrent workers, with crashes.

 A worker claims PENDING rows, marks one DISPATCHING in its own transaction (which gives up
 the row locks of the whole batch), looks for a binding, and then either reports the bound
 mission or creates mission, binding and DISPATCHED status in one transaction. An event is
 one such atomic step. Events of different workers interleave freely, and a crash may drop
 an attempt between any two of its steps. Rows read before a step may be stale.
 */
module SweepProtocol {
  import opened Wrappers
  import opened ScheduleStore

  datatype Phase = Claimed | Marked | Building | Broken

  /** One worker's work on one occurrence; attempts is the counter as read when claiming. */
  datatype Attempt = Attempt(occurrence: Id, attempts: int, phase: Phase)

  datatype System = System(db: Tables, running: map<Id, Attempt>)

  datatype Event =
    | Claim(attempt: Id, occurrence: Id)
    | Mark(attempt: Id)
    | LookForBinding(attempt: Id)
    | CommitMission(attempt: Id, mission: Id, binding: Id)
    | CommitAdmission(attempt: Id, campaign: Id, item: Id, binding: Id)
    | Refuse(attempt: Id, outcome: OccurrenceStatus)
    | Break(attempt: Id)
    | Recover(attempt: Id)
    | Crash(attempt: Id)
    | Reconcile(occurrence: Id)
    | ExpireWait(occurrence: Id)
    | Background(statements: seq<Statement>)

  /** The binding that answers for the occurrence's own target type. */
  predicate Bound(t: Tables, o: Id)
    requires o in t.occurrences
  {
    match t.occurrences[o].target
    case StandaloneMission => exists b <- t.missionBindings :: t.missionBindings[b].occurrenceId == o
    case CampaignAdmission => exists b <- t.campaignBindings :: t.campaignBindings[b].occurrenceId == o
  }

  /** Commit a transaction, or leave the tables alone when it is rolled back. */
  function Attempted(t: Tables, statements: seq<Statement>): (r: Tables) {
    match Transaction(t, statements)
    case Some(u) => u
    case None => t
  }

  function WithStatus(t: Tables, o: Id, status: OccurrenceStatus): (r: Tables)
    requires o in t.occurrences
  {
    Attempted(t, [UpdateOccurrence(o, t.occurrences[o].(status := status))])
  }

  /** PENDING while attempts remain, then FAILED. */
  function RetryStatus(row: Occurrence, maxAttempts: int): OccurrenceStatus {
    if row.attempts >= maxAttempts then Failed else Pending
  }

  function DispatchStatements(t: Tables, o: Id, mission: Id, binding: Id): seq<Statement>
    requires o in t.occurrences
  {
    [InsertMission(mission, Mission(Some(o))),
     InsertMissionBinding(binding, MissionBinding(o, mission)),
     UpdateOccurrence(o, t.occurrences[o].(status := Dispatched, targetId := Some(mission)))]
  }

  function AdmissionStatements(t: Tables, o: Id, campaign: Id, item: Id, binding: Id): seq<Statement>
    requires o in t.occurrences
  {
    [InsertCampaignBinding(binding, CampaignBinding(o, campaign, item)),
     UpdateOccurrence(o, t.occurrences[o].(status := Dispatched, targetId := Some(item)))]
  }

  /** Transactions of everyone else: schedule services, materialisation, missions, campaigns.
      They insert occurrences that are not yet dispatched, and leave existing occurrences and
      the bindings to the dispatcher; only the dispatcher marks a mission with its origin. */
  predicate IsBackground(s: Statement) {
    match s
    case InsertOccurrence(_, row) => !row.status.Dispatched?
    case UpdateOccurrence(_, _) => false
    case DeleteOccurrence(_) => false
    case InsertMission(_, row) => row.origin.None?
    case InsertMissionBinding(_, _) => false
    case DeleteMissionBinding(_) => false
    case InsertCampaignBinding(_, _) => false
    case DeleteCampaignBinding(_) => false
    case _ => true
  }

  predicate InPhase(s: System, a: Id, phase: Phase) {
    a in s.running && s.running[a].phase == phase && s.running[a].occurrence in s.db.occurrences
  }

  function Advance(s: System, a: Id, phase: Phase): System
    requires a in s.running
  {
    s.(running := s.running[a := s.running[a].(phase := phase)])
  }

  function Finish(s: System, a: Id, db: Tables): System {
    s.(db := db, running := s.running - {a})
  }

  /** The downstream row a binding points to: the mission, or the campaign item. */
  ghost function DownstreamOf(t: Tables, o: Id): (r: Id)
    requires o in t.occurrences && Bound(t, o)
    ensures t.occurrences[o].target.StandaloneMission? ==>
              exists b <- t.missionBindings :: t.missionBindings[b] == MissionBinding(o, r)
    ensures t.occurrences[o].target.CampaignAdmission? ==>
              exists b <- t.campaignBindings ::
                t.campaignBindings[b].occurrenceId == o && t.campaignBindings[b].itemId == r
  {
    match t.occurrences[o].target
    case StandaloneMission =>
      var b :| b in t.missionBindings && t.missionBindings[b].occurrenceId == o;
      assert t.missionBindings[b] == MissionBinding(o, t.missionBindings[b].missionId);
      t.missionBindings[b].missionId
    case CampaignAdmission =>
      var b :| b in t.campaignBindings && t.campaignBindings[b].occurrenceId == o;
      t.campaignBindings[b].itemId
  }

  /** A stale DISPATCHING row: its binding decides, and without one the attempt counter does. */
  ghost function Reconciled(t: Tables, o: Id, maxAttempts: int): Tables
    requires o in t.occurrences
  {
    if Bound(t, o) then
      Attempted(t, [UpdateOccurrence(o,
        t.occurrences[o].(status := Dispatched, targetId := Some(DownstreamOf(t, o))))])
    else WithStatus(t, o, RetryStatus(t.occurrences[o], maxAttempts))
  }

  // ---- The steps; a step that cannot happen in s changes nothing ----

  /** Read a PENDING row. Locks are no part of the steps: whatever holds of all of them holds of the
      ones that the row locks let through, and Granted says which these are. */
  function ClaimStep(s: System, a: Id, o: Id): System {
    if a !in s.running && o in s.db.occurrences && s.db.occurrences[o].status.Pending?
    then s.(running := s.running[a := Attempt(o, s.db.occurrences[o].attempts, Claimed)])
    else s
  }

  /** Write DISPATCHING and the incremented counter from the stale copy, and commit. */
  function MarkStep(s: System, a: Id): System {
    if InPhase(s, a, Claimed) then
      var o := s.running[a].occurrence;
      var row := s.db.occurrences[o].(status := Dispatching, attempts := s.running[a].attempts + 1);
      Advance(s, a, Marked).(db := Attempted(s.db, [UpdateOccurrence(o, row)]))
    else s
  }

  /** An existing binding ends the attempt (ALREADY_BOUND) and leaves the status as it is. */
  function LookStep(s: System, a: Id): System {
    if InPhase(s, a, Marked) then
      if Bound(s.db, s.running[a].occurrence) then Finish(s, a, s.db) else Advance(s, a, Building)
    else s
  }

  function MissionStep(s: System, a: Id, mission: Id, binding: Id): System {
    if InPhase(s, a, Building) && s.db.occurrences[s.running[a].occurrence].target.StandaloneMission? then
      match Transaction(s.db, DispatchStatements(s.db, s.running[a].occurrence, mission, binding))
      case Some(u) => Finish(s, a, u)
      case None => Advance(s, a, Broken)
    else s
  }

  function AdmissionStep(s: System, a: Id, campaign: Id, item: Id, binding: Id): System {
    if InPhase(s, a, Building) && s.db.occurrences[s.running[a].occurrence].target.CampaignAdmission? then
      match Transaction(s.db, AdmissionStatements(s.db, s.running[a].occurrence, campaign, item, binding))
      case Some(u) => Finish(s, a, u)
      case None => Advance(s, a, Broken)
    else s
  }

  /** Campaign capacity, state or content does not allow an admission. */
  function RefuseStep(s: System, a: Id, outcome: OccurrenceStatus): System {
    if && InPhase(s, a, Building) && s.db.occurrences[s.running[a].occurrence].target.CampaignAdmission?
       && (outcome.Waiting? || outcome.Skipped? || outcome.Failed?)
    then Finish(s, a, WithStatus(s.db, s.running[a].occurrence, outcome))
    else s
  }

  /** The exception handler after the rollback: the status is rewritten without looking for a binding.
      A handler that fails itself before its write is a crash. */
  function RecoverStep(s: System, a: Id, maxAttempts: int): System {
    if InPhase(s, a, Broken) then
      var o := s.running[a].occurrence;
      Finish(s, a, WithStatus(s.db, o, RetryStatus(s.db.occurrences[o], maxAttempts)))
    else s
  }

  ghost function ReconcileStep(s: System, o: Id, maxAttempts: int): System {
    if o in s.db.occurrences && s.db.occurrences[o].status.Dispatching?
    then s.(db := Reconciled(s.db, o, maxAttempts))
    else s
  }

  function ExpireStep(s: System, o: Id): System {
    if o in s.db.occurrences && s.db.occurrences[o].status.Waiting? then s.(db := WithStatus(s.db, o, Skipped)) else s
  }

  function BackgroundStep(s: System, statements: seq<Statement>): System {
    if forall x <- statements :: IsBackground(x) then s.(db := Attempted(s.db, statements)) else s
  }

  ghost function Next(s: System, e: Event, maxAttempts: int): (r: System) {
    match e
    case Claim(a, o) => ClaimStep(s, a, o)
    case Mark(a) => MarkStep(s, a)
    case LookForBinding(a) => LookStep(s, a)
    case CommitMission(a, mission, binding) => MissionStep(s, a, mission, binding)
    case CommitAdmission(a, campaign, item, binding) => AdmissionStep(s, a, campaign, item, binding)
    case Refuse(a, outcome) => RefuseStep(s, a, outcome)
    case Break(a) => if InPhase(s, a, Building) then Advance(s, a, Broken) else s
    case Recover(a) => RecoverStep(s, a, maxAttempts)
    case Crash(a) => Finish(s, a, s.db)
    case Reconcile(o) => ReconcileStep(s, o, maxAttempts)
    case ExpireWait(o) => ExpireStep(s, o)
    case Background(statements) => BackgroundStep(s, statements)
  }

  ghost function RunEvents(s: System, events: seq<Event>, maxAttempts: int): (r: System)
    decreases |events|
  {
    if events == [] then s else RunEvents(Next(s, events[0], maxAttempts), events[1..], maxAttempts)
  }

  // ---- Safety over every interleaving ----

  ghost predicate HasBinding(t: Tables, o: Id, m: Id) {
    exists b <- t.missionBindings :: t.missionBindings[b] == MissionBinding(o, m)
  }

  /** A mission that carries an origin is bound to that occurrence: none is orphaned. */
  ghost predicate OriginsBound(t: Tables) {
    forall m <- t.missions | t.missions[m].origin.Some? :: HasBinding(t, t.missions[m].origin.value, m)
  }

  ghost predicate DispatchedBound(t: Tables) {
    forall o <- t.occurrences | t.occurrences[o].status.Dispatched? :: Bound(t, o)
  }

  ghost predicate Safe(s: System) {
    Integrity(s.db) && OriginsBound(s.db) && DispatchedBound(s.db)
  }

  /** Later tables that keep every binding, every occurrence and its target. */
  ghost predicate Grows(t: Tables, u: Tables) {
    && (forall b <- t.missionBindings :: b in u.missionBindings && u.missionBindings[b] == t.missionBindings[b])
    && (forall b <- t.campaignBindings :: b in u.campaignBindings && u.campaignBindings[b] == t.campaignBindings[b])
    && (forall o <- t.occurrences :: o in u.occurrences && u.occurrences[o].target == t.occurrences[o].target)
  }

  lemma GrowsKeepsBound(t: Tables, u: Tables, o: Id)
    requires Grows(t, u) && o in t.occurrences && Bound(t, o)
    ensures o in u.occurrences && Bound(u, o)
  {
    match t.occurrences[o].target
    case StandaloneMission =>
      var b :| b in t.missionBindings && t.missionBindings[b].occurrenceId == o;
      assert b in u.missionBindings && u.missionBindings[b].occurrenceId == o;
    case CampaignAdmission =>
      var b :| b in t.campaignBindings && t.campaignBindings[b].occurrenceId == o;
      assert b in u.campaignBindings && u.campaignBindings[b].occurrenceId == o;
  }

  /** A status update of an existing row always commits and changes that row alone. */
  lemma UpdateCommits(t: Tables, o: Id, row: Occurrence)
    requires Integrity(t) && o in t.occurrences && OccurrenceRowOk(row)
    requires row == t.occurrences[o].(status := row.status, targetId := row.targetId, attempts := row.attempts)
    ensures Transaction(t, [UpdateOccurrence(o, row)]) == Some(t.(occurrences := t.occurrences[o := row]))
  {
    forall p <- t.occurrences | p != o ensures !SameTick(t.occurrences[p], row) {
      assert !SameTick(t.occurrences[p], t.occurrences[o]);
    }
    TransactionOfOne(t, UpdateOccurrence(o, row));
  }

  lemma StillDispatchedBound(t: Tables, u: Tables)
    requires Grows(t, u)
    requires forall p <- u.occurrences | u.occurrences[p].status.Dispatched? ::
      Bound(u, p) || (p in t.occurrences && Bound(t, p))
    ensures DispatchedBound(u)
  {
    forall p <- u.occurrences | u.occurrences[p].status.Dispatched? ensures Bound(u, p) {
      if !Bound(u, p) {
        GrowsKeepsBound(t, u, p);
      }
    }
  }

  lemma StillHasBinding(t: Tables, u: Tables, o: Id, m: Id)
    requires Grows(t, u) && HasBinding(t, o, m)
    ensures HasBinding(u, o, m)
  {
    var b :| b in t.missionBindings && t.missionBindings[b] == MissionBinding(o, m);
    assert u.missionBindings[b] == t.missionBindings[b];
  }

  lemma StillOriginsBound(t: Tables, u: Tables)
    requires OriginsBound(t) && Grows(t, u)
    requires forall m <- u.missions | u.missions[m].origin.Some? ::
      (m in t.missions && t.missions[m] == u.missions[m]) || HasBinding(u, u.missions[m].origin.value, m)
    ensures OriginsBound(u)
  {
    forall m <- u.missions | u.missions[m].origin.Some? ensures HasBinding(u, u.missions[m].origin.value, m) {
      if m in t.missions && t.missions[m] == u.missions[m] {
        StillHasBinding(t, u, u.missions[m].origin.value, m);
      }
    }
  }

  lemma RowGrows(t: Tables, o: Id, row: Occurrence)
    requires o in t.occurrences && row.target == t.occurrences[o].target
    ensures Grows(t, t.(occurrences := t.occurrences[o := row]))
  {
  }

  lemma UpdateKeepsBindings(t: Tables, o: Id, row: Occurrence)
    requires OriginsBound(t) && DispatchedBound(t) && o in t.occurrences
    requires (row.status.Dispatched? ==> Bound(t, o)) && row.target == t.occurrences[o].target
    ensures var u := t.(occurrences := t.occurrences[o := row]);
            OriginsBound(u) && DispatchedBound(u) && Grows(t, u)
  {
    var u := t.(occurrences := t.occurrences[o := row]);
    RowGrows(t, o, row);
    StillDispatchedBound(t, u);
    StillOriginsBound(t, u);
  }

  /** The update is safe when DISPATCHED is only written over a binding. */
  lemma UpdateIsSafe(t: Tables, o: Id, row: Occurrence, u: Tables)
    requires Integrity(t) && OriginsBound(t) && DispatchedBound(t) && o in t.occurrences
    requires row.status.Dispatched? ==> Bound(t, o)
    requires OccurrenceRowOk(row)
    requires row == t.occurrences[o].(status := row.status, targetId := row.targetId, attempts := row.attempts)
    requires u == Attempted(t, [UpdateOccurrence(o, row)])
    ensures Integrity(u) && OriginsBound(u) && DispatchedBound(u) && Grows(t, u)
  {
    UpdateCommits(t, o, row);
    UpdateKeepsBindings(t, o, row);
    assert Integrity(u) by {
      TransactionKeepsIntegrity(t, [UpdateOccurrence(o, row)]);
    }
  }

  predicate HasMission(t: Tables, o: Id) {
    exists c <- t.missionBindings :: t.missionBindings[c].occurrenceId == o
  }

  function DispatchEffect(t: Tables, o: Id, m: Id, b: Id): Tables
    requires o in t.occurrences
  {
    t.(missions := t.missions[m := Mission(Some(o))],
       missionBindings := t.missionBindings[b := MissionBinding(o, m)],
       occurrences := t.occurrences[o := t.occurrences[o].(status := Dispatched, targetId := Some(m))])
  }

  /** Rewriting status and target of a row passes its checks, whatever the other tables hold. */
  lemma RowStillFits(t: Tables, o: Id, row: Occurrence)
    requires OccurrencesOk(t.occurrences, t.schedules.Keys, t.versions) && o in t.occurrences
    requires row == t.occurrences[o].(status := row.status, targetId := row.targetId)
    ensures Execute(t, UpdateOccurrence(o, row)) == Some(t.(occurrences := t.occurrences[o := row]))
  {
    forall p <- t.occurrences | p != o ensures !SameTick(t.occurrences[p], row) {
      assert !SameTick(t.occurrences[p], t.occurrences[o]);
    }
  }

  lemma NewBindingFits(t: Tables, o: Id, m: Id, b: Id)
    requires MissionBindingsOk(t.missionBindings, t.occurrences.Keys, t.missions.Keys)
    requires o in t.occurrences && m !in t.missions && b !in t.missionBindings
    ensures var t1 := t.(missions := t.missions[m := Mission(Some(o))]);
            Execute(t1, InsertMissionBinding(b, MissionBinding(o, m))) ==
            if HasMission(t, o) then None
            else Some(t1.(missionBindings := t.missionBindings[b := MissionBinding(o, m)]))
  {
    if c :| c in t.missionBindings && t.missionBindings[c].occurrenceId == o {
      assert SharesMissionKey(t.missionBindings[c], MissionBinding(o, m));
    }
  }

  lemma ThreeCommit(t: Tables, a: Statement, b: Statement, c: Statement, t1: Tables, t2: Tables, t3: Tables)
    requires LeavesReferences(a) && LeavesReferences(b) && LeavesReferences(c)
    requires Execute(t, a) == Some(t1) && Execute(t1, b) == Some(t2) && Execute(t2, c) == Some(t3)
    ensures Transaction(t, [a, b, c]) == Some(t3)
  {
    TransactionOfThree(t, a, b, c);
  }

  lemma SecondRefused(t: Tables, a: Statement, b: Statement, c: Statement, t1: Tables)
    requires LeavesReferences(a) && LeavesReferences(b) && LeavesReferences(c)
    requires Execute(t, a) == Some(t1) && Execute(t1, b) == None
    ensures Transaction(t, [a, b, c]) == None
  {
    TransactionOfThree(t, a, b, c);
  }

  lemma NewMissionFits(t: Tables, o: Id, m: Id)
    requires m !in t.missions
    ensures Execute(t, InsertMission(m, Mission(Some(o)))) == Some(t.(missions := t.missions[m := Mission(Some(o))]))
  {
  }

  /** Creating mission, binding and DISPATCHED status is one step that commits exactly when the
      occurrence has no mission yet, given fresh keys, and then changes nothing else. */
  lemma DispatchExact(t: Tables, o: Id, m: Id, b: Id)
    requires Integrity(t) && o in t.occurrences && m !in t.missions && b !in t.missionBindings
    ensures Transaction(t, DispatchStatements(t, o, m, b)) ==
            if HasMission(t, o) then None else Some(DispatchEffect(t, o, m, b))
  {
    var t1 := t.(missions := t.missions[m := Mission(Some(o))]);
    var row := t.occurrences[o].(status := Dispatched, targetId := Some(m));
    var insert, bind := InsertMission(m, Mission(Some(o))), InsertMissionBinding(b, MissionBinding(o, m));
    var mark := UpdateOccurrence(o, row);
    NewMissionFits(t, o, m);
    NewBindingFits(t, o, m, b);
    if HasMission(t, o) {
      SecondRefused(t, insert, bind, mark, t1);
    } else {
      var t2 := t1.(missionBindings := t.missionBindings[b := MissionBinding(o, m)]);
      RowStillFits(t2, o, row);
      ThreeCommit(t, insert, bind, mark, t1, t2, DispatchEffect(t, o, m, b));
    }
  }

  lemma DispatchNeedsFreshKeys(t: Tables, o: Id, m: Id, b: Id)
    requires o in t.occurrences && Transaction(t, DispatchStatements(t, o, m, b)).Some?
    ensures m !in t.missions && b !in t.missionBindings
  {
    var ss := DispatchStatements(t, o, m, b);
    TransactionOfThree(t, ss[0], ss[1], ss[2]);
  }

  lemma DispatchEffectIsSafe(t: Tables, o: Id, m: Id, b: Id)
    requires OriginsBound(t) && DispatchedBound(t) && o in t.occurrences
    requires t.occurrences[o].target.StandaloneMission? && m !in t.missions && b !in t.missionBindings
    ensures var u := DispatchEffect(t, o, m, b); OriginsBound(u) && DispatchedBound(u) && Grows(t, u)
  {
    var u := DispatchEffect(t, o, m, b);
    assert u.missionBindings[b] == MissionBinding(o, m);
    assert HasBinding(u, o, m) && Bound(u, o);
    StillDispatchedBound(t, u);
    StillOriginsBound(t, u);
  }

  /** Whatever keys are used, a dispatch that commits wrote all three rows or none. */
  lemma DispatchIsSafe(t: Tables, o: Id, m: Id, b: Id)
    requires Integrity(t) && OriginsBound(t) && DispatchedBound(t) && o in t.occurrences
    requires t.occurrences[o].target.StandaloneMission?
    requires Transaction(t, DispatchStatements(t, o, m, b)).Some?
    ensures var u := Transaction(t, DispatchStatements(t, o, m, b)).value;
            Integrity(u) && OriginsBound(u) && DispatchedBound(u) && Grows(t, u)
  {
    var ss := DispatchStatements(t, o, m, b);
    DispatchNeedsFreshKeys(t, o, m, b);
    assert Transaction(t, ss) == Some(DispatchEffect(t, o, m, b)) by {
      DispatchExact(t, o, m, b);
    }
    assert Integrity(DispatchEffect(t, o, m, b)) by {
      TransactionKeepsIntegrity(t, ss);
    }
    DispatchEffectIsSafe(t, o, m, b);
  }

  function AdmissionEffect(t: Tables, o: Id, campaign: Id, item: Id, b: Id): Tables
    requires o in t.occurrences
  {
    t.(campaignBindings := t.campaignBindings[b := CampaignBinding(o, campaign, item)],
       occurrences := t.occurrences[o := t.occurrences[o].(status := Dispatched, targetId := Some(item))])
  }

  lemma AdmissionEffectIsSafe(t: Tables, o: Id, campaign: Id, item: Id, b: Id)
    requires OriginsBound(t) && DispatchedBound(t) && o in t.occurrences
    requires t.occurrences[o].target.CampaignAdmission? && b !in t.campaignBindings
    ensures var u := AdmissionEffect(t, o, campaign, item, b);
            OriginsBound(u) && DispatchedBound(u) && Grows(t, u)
  {
    var u := AdmissionEffect(t, o, campaign, item, b);
    assert u.campaignBindings[b].occurrenceId == o;
    assert Bound(u, o);
    StillDispatchedBound(t, u);
    StillOriginsBound(t, u);
  }

  lemma TwoCommit(t: Tables, a: Statement, b: Statement, t1: Tables, t2: Tables)
    requires LeavesReferences(a) && LeavesReferences(b)
    requires Execute(t, a).Some? ==> Execute(t, a).value == t1 && Execute(t1, b) == Some(t2)
    ensures Transaction(t, [a, b]) == if Execute(t, a).Some? then Some(t2) else None
  {
    TransactionOfTwo(t, a, b);
  }

  predicate AdmissionFits(t: Tables, o: Id, campaign: Id, item: Id, b: Id) {
    && b !in t.campaignBindings
    && CampaignBindingRefersTo(CampaignBinding(o, campaign, item), t.occurrences.Keys, t.campaigns, t.items)
    && forall c <- t.campaignBindings :: !SharesItemKey(t.campaignBindings[c], CampaignBinding(o, campaign, item))
  }

  lemma NewCampaignBindingFits(t: Tables, o: Id, campaign: Id, item: Id, b: Id)
    ensures Execute(t, InsertCampaignBinding(b, CampaignBinding(o, campaign, item))) ==
            if AdmissionFits(t, o, campaign, item, b)
            then Some(t.(campaignBindings := t.campaignBindings[b := CampaignBinding(o, campaign, item)])) else None
  {
  }

  /** An admission commits exactly when neither the occurrence nor the item is bound yet, given a
      fresh key and existing rows, and then writes binding and status together. */
  lemma AdmissionExact(t: Tables, o: Id, campaign: Id, item: Id, b: Id)
    requires Integrity(t) && o in t.occurrences
    ensures Transaction(t, AdmissionStatements(t, o, campaign, item, b)) ==
            if AdmissionFits(t, o, campaign, item, b) then Some(AdmissionEffect(t, o, campaign, item, b)) else None
  {
    var t1 := t.(campaignBindings := t.campaignBindings[b := CampaignBinding(o, campaign, item)]);
    var row := t.occurrences[o].(status := Dispatched, targetId := Some(item));
    NewCampaignBindingFits(t, o, campaign, item, b);
    RowStillFits(t1, o, row);
    TwoCommit(t, InsertCampaignBinding(b, CampaignBinding(o, campaign, item)), UpdateOccurrence(o, row), t1,
              AdmissionEffect(t, o, campaign, item, b));
  }

  lemma AdmissionIsSafe(t: Tables, o: Id, campaign: Id, item: Id, b: Id)
    requires Integrity(t) && OriginsBound(t) && DispatchedBound(t) && o in t.occurrences
    requires t.occurrences[o].target.CampaignAdmission?
    requires Transaction(t, AdmissionStatements(t, o, campaign, item, b)).Some?
    ensures var u := Transaction(t, AdmissionStatements(t, o, campaign, item, b)).value;
            Integrity(u) && OriginsBound(u) && DispatchedBound(u) && Grows(t, u)
  {
    var ss := AdmissionStatements(t, o, campaign, item, b);
    AdmissionExact(t, o, campaign, item, b);
    assert Integrity(AdmissionEffect(t, o, campaign, item, b)) by {
      TransactionKeepsIntegrity(t, ss);
    }
    AdmissionEffectIsSafe(t, o, campaign, item, b);
  }

  /** What background work may do to the tables the dispatcher relies on. */
  ghost predicate Quiet(t: Tables, u: Tables) {
    && u.missionBindings == t.missionBindings && u.campaignBindings == t.campaignBindings
    && (forall o <- t.occurrences :: o in u.occurrences && u.occurrences[o] == t.occurrences[o])
    && (forall o <- u.occurrences | o !in t.occurrences :: !u.occurrences[o].status.Dispatched?)
    && (forall m <- u.missions | u.missions[m].origin.Some? :: m in t.missions && t.missions[m] == u.missions[m])
  }

  lemma StatementIsQuiet(t: Tables, s: Statement)
    requires IsBackground(s) && Execute(t, s).Some?
    ensures Quiet(t, Effect(t, s))
  {
  }

  lemma {:induction false} BackgroundIsQuiet(p: Progress, statements: seq<Statement>)
    requires forall x <- statements :: IsBackground(x)
    ensures Run(p, statements).Some? ==> Quiet(p.tables, Run(p, statements).value.tables)
    decreases |statements|
  {
    if statements != [] {
      var s := statements[0];
      assert s in statements && IsBackground(s);
      if Execute(p.tables, s).Some? {
        StatementIsQuiet(p.tables, s);
        var q := Progress(Effect(p.tables, s), p.touched + Touched(p.tables, s));
        BackgroundIsQuiet(q, statements[1..]);
      }
    }
  }

  lemma QuietGrows(t: Tables, u: Tables)
    requires Quiet(t, u)
    ensures Grows(t, u)
  {
  }

  lemma QuietIsSafe(t: Tables, u: Tables)
    requires OriginsBound(t) && DispatchedBound(t) && Quiet(t, u)
    ensures OriginsBound(u) && DispatchedBound(u)
  {
    QuietGrows(t, u);
    StillDispatchedBound(t, u);
    StillOriginsBound(t, u);
  }

  lemma AttemptedIsQuiet(t: Tables, statements: seq<Statement>)
    requires forall x <- statements :: IsBackground(x)
    ensures Quiet(t, Attempted(t, statements))
  {
    BackgroundIsQuiet(Progress(t, {}), statements);
  }

  lemma BackgroundIsSafe(t: Tables, statements: seq<Statement>)
    requires Integrity(t) && OriginsBound(t) && DispatchedBound(t)
    requires forall x <- statements :: IsBackground(x)
    ensures var u := Attempted(t, statements);
            Integrity(u) && OriginsBound(u) && DispatchedBound(u) && Grows(t, u) && Quiet(t, u)
  {
    var u := Attempted(t, statements);
    assert Integrity(u) by {
      TransactionKeepsIntegrity(t, statements);
    }
    AttemptedIsQuiet(t, statements);
    QuietGrows(t, u);
    QuietIsSafe(t, u);
  }

  /** Reconciling a stale row changes that row only; a bound row becomes DISPATCHED and points
      to what it is bound to, an unbound one is retried or failed by its attempt counter. */
  lemma ReconcileExact(s: System, o: Id, maxAttempts: int)
    requires Safe(s) && o in s.db.occurrences && s.db.occurrences[o].status.Dispatching?
    ensures var before := s.db.occurrences[o];
            var after := if Bound(s.db, o)
                         then before.(status := Dispatched, targetId := Some(DownstreamOf(s.db, o)))
                         else before.(status := if before.attempts >= maxAttempts then Failed else Pending);
            Next(s, Reconcile(o), maxAttempts) == s.(db := s.db.(occurrences := s.db.occurrences[o := after]))
  {
    var before := s.db.occurrences[o];
    if Bound(s.db, o) {
      UpdateCommits(s.db, o, before.(status := Dispatched, targetId := Some(DownstreamOf(s.db, o))));
    } else {
      UpdateCommits(s.db, o, before.(status := RetryStatus(before, maxAttempts)));
    }
  }

  /** The handler of a broken attempt ends it; the row is retried while attempts remain and fails then. */
  lemma RecoverExact(s: System, a: Id, maxAttempts: int)
    requires Safe(s) && InPhase(s, a, Broken)
    ensures var o := s.running[a].occurrence;
            var before := s.db.occurrences[o];
            var after := before.(status := if before.attempts >= maxAttempts then Failed else Pending);
            Next(s, Recover(a), maxAttempts) == System(s.db.(occurrences := s.db.occurrences[o := after]), s.running - {a})
  {
    var o := s.running[a].occurrence;
    UpdateCommits(s.db, o, s.db.occurrences[o].(status := RetryStatus(s.db.occurrences[o], maxAttempts)));
  }

  /** Stale counters stay non-negative, as chk_attempt_count_positive needs. */
  ghost predicate CountersOk(s: System) {
    forall a <- s.running :: s.running[a].attempts >= 0
  }

  ghost predicate SafeStep(s: System, r: System) {
    Safe(r) && CountersOk(r) && Grows(s.db, r.db)
  }

  lemma UpdateStepIsSafe(s: System, o: Id, row: Occurrence, running: map<Id, Attempt>)
    requires Safe(s) && o in s.db.occurrences
    requires forall a <- running :: running[a].attempts >= 0
    requires row.status.Dispatched? ==> Bound(s.db, o)
    requires OccurrenceRowOk(row)
    requires row == s.db.occurrences[o].(status := row.status, targetId := row.targetId, attempts := row.attempts)
    ensures SafeStep(s, System(Attempted(s.db, [UpdateOccurrence(o, row)]), running))
  {
    UpdateIsSafe(s.db, o, row, Attempted(s.db, [UpdateOccurrence(o, row)]));
  }

  lemma StatusStepIsSafe(s: System, o: Id, status: OccurrenceStatus, running: map<Id, Attempt>)
    requires Safe(s) && o in s.db.occurrences && !status.Dispatched?
    requires forall a <- running :: running[a].attempts >= 0
    ensures SafeStep(s, System(WithStatus(s.db, o, status), running))
  {
    UpdateStepIsSafe(s, o, s.db.occurrences[o].(status := status), running);
  }

  lemma MarkStepIsSafe(s: System, a: Id)
    requires Safe(s) && CountersOk(s)
    ensures SafeStep(s, MarkStep(s, a))
  {
    if InPhase(s, a, Claimed) {
      var o := s.running[a].occurrence;
      var row := s.db.occurrences[o].(status := Dispatching, attempts := s.running[a].attempts + 1);
      var running := Advance(s, a, Marked).running;
      assert MarkStep(s, a) == System(Attempted(s.db, [UpdateOccurrence(o, row)]), running);
      MarkedCounters(s, a, running);
      UpdateStepIsSafe(s, o, row, running);
    }
  }

  lemma MarkedCounters(s: System, a: Id, running: map<Id, Attempt>)
    requires CountersOk(s) && a in s.running && running == Advance(s, a, Marked).running
    ensures forall x <- running :: running[x].attempts >= 0
  {
  }

  lemma MissionStepIsSafe(s: System, a: Id, m: Id, b: Id)
    requires Safe(s) && CountersOk(s)
    ensures SafeStep(s, MissionStep(s, a, m, b))
  {
    if InPhase(s, a, Building) && s.db.occurrences[s.running[a].occurrence].target.StandaloneMission? {
      var o := s.running[a].occurrence;
      if Transaction(s.db, DispatchStatements(s.db, o, m, b)).Some? {
        DispatchIsSafe(s.db, o, m, b);
      }
    }
  }

  lemma AdmissionStepIsSafe(s: System, a: Id, c: Id, i: Id, b: Id)
    requires Safe(s) && CountersOk(s)
    ensures SafeStep(s, AdmissionStep(s, a, c, i, b))
  {
    if InPhase(s, a, Building) && s.db.occurrences[s.running[a].occurrence].target.CampaignAdmission? {
      var o := s.running[a].occurrence;
      if Transaction(s.db, AdmissionStatements(s.db, o, c, i, b)).Some? {
        AdmissionIsSafe(s.db, o, c, i, b);
      }
    }
  }

  lemma ReconcileStepIsSafe(s: System, o: Id, maxAttempts: int)
    requires Safe(s) && CountersOk(s)
    ensures SafeStep(s, ReconcileStep(s, o, maxAttempts))
  {
    if o in s.db.occurrences && s.db.occurrences[o].status.Dispatching? {
      if Bound(s.db, o) {
        var row := s.db.occurrences[o].(status := Dispatched, targetId := Some(DownstreamOf(s.db, o)));
        UpdateStepIsSafe(s, o, row, s.running);
      } else {
        StatusStepIsSafe(s, o, RetryStatus(s.db.occurrences[o], maxAttempts), s.running);
      }
    }
  }

  lemma RefuseStepIsSafe(s: System, a: Id, outcome: OccurrenceStatus)
    requires Safe(s) && CountersOk(s)
    ensures SafeStep(s, RefuseStep(s, a, outcome))
  {
    if InPhase(s, a, Building) && !outcome.Dispatched? {
      StatusStepIsSafe(s, s.running[a].occurrence, outcome, s.running - {a});
    }
  }

  lemma RecoverStepIsSafe(s: System, a: Id, maxAttempts: int)
    requires Safe(s) && CountersOk(s)
    ensures SafeStep(s, RecoverStep(s, a, maxAttempts))
  {
    if InPhase(s, a, Broken) {
      var o := s.running[a].occurrence;
      StatusStepIsSafe(s, o, RetryStatus(s.db.occurrences[o], maxAttempts), s.running - {a});
    }
  }

  lemma ExpireStepIsSafe(s: System, o: Id)
    requires Safe(s) && CountersOk(s)
    ensures SafeStep(s, ExpireStep(s, o))
  {
    if o in s.db.occurrences {
      StatusStepIsSafe(s, o, Skipped, s.running);
    }
  }

  lemma BackgroundStepIsSafe(s: System, statements: seq<Statement>)
    requires Safe(s) && CountersOk(s)
    ensures SafeStep(s, BackgroundStep(s, statements))
  {
    if forall x <- statements :: IsBackground(x) {
      BackgroundIsSafe(s.db, statements);
    }
  }

  /** Steps that only read rows or forget an attempt. */
  lemma ReadingStepIsSafe(s: System, r: System)
    requires Safe(s) && CountersOk(s) && r.db == s.db
    requires forall a <- r.running :: r.running[a].attempts >= 0
    ensures SafeStep(s, r)
  {
  }

  lemma StepIsSafe(s: System, e: Event, maxAttempts: int)
    requires Safe(s) && CountersOk(s)
    ensures SafeStep(s, Next(s, e, maxAttempts))
  {
    match e
    case CommitMission(a, m, b) => MissionStepIsSafe(s, a, m, b);
    case CommitAdmission(a, c, i, b) => AdmissionStepIsSafe(s, a, c, i, b);
    case Refuse(a, outcome) => RefuseStepIsSafe(s, a, outcome);
    case Recover(a) => RecoverStepIsSafe(s, a, maxAttempts);
    case Reconcile(o) => ReconcileStepIsSafe(s, o, maxAttempts);
    case ExpireWait(o) => ExpireStepIsSafe(s, o);
    case Background(statements) => BackgroundStepIsSafe(s, statements);
    case _ => AttemptStepIsSafe(s, e, maxAttempts);
  }

  lemma AttemptStepIsSafe(s: System, e: Event, maxAttempts: int)
    requires Safe(s) && CountersOk(s)
    requires e.Claim? || e.Mark? || e.LookForBinding? || e.Break? || e.Crash?
    ensures SafeStep(s, Next(s, e, maxAttempts))
  {
    match e
    case Claim(a, o) => ClaimStepIsSafe(s, a, o);
    case Mark(a) => MarkStepIsSafe(s, a);
    case LookForBinding(a) => ReadingStepIsSafe(s, LookStep(s, a));
    case Break(a) => ReadingStepIsSafe(s, if InPhase(s, a, Building) then Advance(s, a, Broken) else s);
    case Crash(a) => ReadingStepIsSafe(s, Finish(s, a, s.db));
  }

  lemma ClaimStepIsSafe(s: System, a: Id, o: Id)
    requires Safe(s) && CountersOk(s)
    ensures SafeStep(s, ClaimStep(s, a, o))
  {
    if o in s.db.occurrences {
      assert OccurrenceRowOk(s.db.occurrences[o]);
    }
    ReadingStepIsSafe(s, ClaimStep(s, a, o));
  }

  lemma {:induction false} RunIsSafe(s: System, events: seq<Event>, maxAttempts: int)
    requires Safe(s) && CountersOk(s)
    ensures var r := RunEvents(s, events, maxAttempts); Safe(r) && Grows(s.db, r.db)
    decreases |events|
  {
    if events != [] {
      StepIsSafe(s, events[0], maxAttempts);
      RunIsSafe(Next(s, events[0], maxAttempts), events[1..], maxAttempts);
    }
  }

  /** No interleaving, crash or recovery gives an occurrence a second mission. */
  lemma AtMostOneMission(s: System, events: seq<Event>, maxAttempts: int, m: Id, n: Id)
    requires Safe(s) && CountersOk(s)
    requires var t := RunEvents(s, events, maxAttempts).db;
             m in t.missions && n in t.missions && t.missions[m].origin.Some? && t.missions[n] == t.missions[m]
    ensures m == n
  {
    RunIsSafe(s, events, maxAttempts);
    var t := RunEvents(s, events, maxAttempts).db;
    var o := t.missions[m].origin.value;
    assert HasBinding(t, o, m) && HasBinding(t, o, n);
    var b :| b in t.missionBindings && t.missionBindings[b] == MissionBinding(o, m);
    var c :| c in t.missionBindings && t.missionBindings[c] == MissionBinding(o, n);
    assert SharesMissionKey(t.missionBindings[b], t.missionBindings[c]);
  }

  /** DISPATCHED means bound, and a binding once seen (the ALREADY_BOUND answer) never changes. */
  lemma DispatchedMeansBoundForGood(s: System, events: seq<Event>, maxAttempts: int, o: Id)
    requires Safe(s) && CountersOk(s) && o in s.db.occurrences
    ensures var t := RunEvents(s, events, maxAttempts).db;
            && o in t.occurrences
            && (t.occurrences[o].status.Dispatched? ==> Bound(t, o))
            && (Bound(s.db, o) ==> Bound(t, o) && DownstreamOf(t, o) == DownstreamOf(s.db, o))
  {
    RunIsSafe(s, events, maxAttempts);
    var t := RunEvents(s, events, maxAttempts).db;
    if Bound(s.db, o) {
      GrowsKeepsBound(s.db, t, o);
      SameDownstream(s.db, t, o);
    }
  }

  lemma SameMission(t: Tables, o: Id, m: Id, n: Id)
    requires Immediate(t) && HasBinding(t, o, m) && HasBinding(t, o, n)
    ensures m == n
  {
    var b :| b in t.missionBindings && t.missionBindings[b] == MissionBinding(o, m);
    var c :| c in t.missionBindings && t.missionBindings[c] == MissionBinding(o, n);
    assert SharesMissionKey(t.missionBindings[b], t.missionBindings[c]);
  }

  predicate HasItem(t: Tables, o: Id, i: Id) {
    exists b <- t.campaignBindings :: t.campaignBindings[b].occurrenceId == o && t.campaignBindings[b].itemId == i
  }

  lemma SameItem(t: Tables, o: Id, i: Id, j: Id)
    requires Immediate(t) && HasItem(t, o, i) && HasItem(t, o, j)
    ensures i == j
  {
    var b :| b in t.campaignBindings && t.campaignBindings[b].occurrenceId == o && t.campaignBindings[b].itemId == i;
    var c :| c in t.campaignBindings && t.campaignBindings[c].occurrenceId == o && t.campaignBindings[c].itemId == j;
    assert SharesItemKey(t.campaignBindings[b], t.campaignBindings[c]);
  }

  lemma StillHasItem(t: Tables, u: Tables, o: Id, i: Id)
    requires Grows(t, u) && HasItem(t, o, i)
    ensures HasItem(u, o, i)
  {
    var b :| b in t.campaignBindings && t.campaignBindings[b].occurrenceId == o && t.campaignBindings[b].itemId == i;
    assert u.campaignBindings[b] == t.campaignBindings[b];
  }

  lemma SameDownstream(t: Tables, u: Tables, o: Id)
    requires Immediate(u) && Grows(t, u) && o in t.occurrences && Bound(t, o) && Bound(u, o)
    ensures DownstreamOf(u, o) == DownstreamOf(t, o)
  {
    match t.occurrences[o].target
    case StandaloneMission =>
      StillHasBinding(t, u, o, DownstreamOf(t, o));
      SameMission(u, o, DownstreamOf(t, o), DownstreamOf(u, o));
    case CampaignAdmission =>
      StillHasItem(t, u, o, DownstreamOf(t, o));
      SameItem(u, o, DownstreamOf(t, o), DownstreamOf(u, o));
  }

  // ---- Where the status can disagree with the binding ----

  predicate Settled(row: Occurrence) {
    row.status.Dispatching? || row.status.Dispatched?
  }

  /** The two steps that write o's status without looking for a binding: the exception handler, and
      the answer to a refused admission. */
  predicate Blind(s: System, e: Event, o: Id) {
    match e
    case Recover(a) => InPhase(s, a, Broken) && s.running[a].occurrence == o
    case Refuse(a, outcome) =>
      && InPhase(s, a, Building) && s.running[a].occurrence == o && s.db.occurrences[o].target.CampaignAdmission?
      && (outcome.Waiting? || outcome.Skipped? || outcome.Failed?)
    case _ => false
  }

  predicate SettledAt(t: Tables, o: Id) {
    o in t.occurrences && Settled(t.occurrences[o])
  }

  /** One row update, whether it goes through or not. */
  lemma UpdateSettles(t: Tables, p: Id, row: Occurrence, o: Id)
    requires p in t.occurrences && SettledAt(t, o) && (p == o ==> Settled(row))
    ensures SettledAt(Attempted(t, [UpdateOccurrence(p, row)]), o)
  {
    TransactionOfOne(t, UpdateOccurrence(p, row));
  }

  lemma MarkSettles(s: System, a: Id, o: Id)
    requires SettledAt(s.db, o)
    ensures SettledAt(MarkStep(s, a).db, o)
  {
    if InPhase(s, a, Claimed) {
      var p := s.running[a].occurrence;
      UpdateSettles(s.db, p, s.db.occurrences[p].(status := Dispatching, attempts := s.running[a].attempts + 1), o);
    }
  }

  lemma RefuseSettles(s: System, a: Id, outcome: OccurrenceStatus, o: Id)
    requires SettledAt(s.db, o) && !Blind(s, Refuse(a, outcome), o)
    ensures SettledAt(RefuseStep(s, a, outcome).db, o)
  {
    if InPhase(s, a, Building) && s.running[a].occurrence != o {
      var p := s.running[a].occurrence;
      UpdateSettles(s.db, p, s.db.occurrences[p].(status := outcome), o);
    }
  }

  lemma RecoverSettles(s: System, a: Id, maxAttempts: int, o: Id)
    requires SettledAt(s.db, o) && !Blind(s, Recover(a), o)
    ensures SettledAt(RecoverStep(s, a, maxAttempts).db, o)
  {
    if InPhase(s, a, Broken) {
      var p := s.running[a].occurrence;
      UpdateSettles(s.db, p, s.db.occurrences[p].(status := RetryStatus(s.db.occurrences[p], maxAttempts)), o);
    }
  }

  lemma ReconcileSettles(s: System, p: Id, maxAttempts: int, o: Id)
    requires SettledAt(s.db, o) && Bound(s.db, o)
    ensures SettledAt(ReconcileStep(s, p, maxAttempts).db, o)
  {
    if p in s.db.occurrences {
      var row := s.db.occurrences[p];
      if Bound(s.db, p) {
        UpdateSettles(s.db, p, row.(status := Dispatched, targetId := Some(DownstreamOf(s.db, p))), o);
      } else {
        UpdateSettles(s.db, p, row.(status := RetryStatus(row, maxAttempts)), o);
      }
    }
  }

  lemma ExpireSettles(s: System, p: Id, o: Id)
    requires SettledAt(s.db, o)
    ensures SettledAt(ExpireStep(s, p).db, o)
  {
    if p in s.db.occurrences && p != o {
      UpdateSettles(s.db, p, s.db.occurrences[p].(status := Skipped), o);
    }
  }

  lemma BackgroundSettles(s: System, statements: seq<Statement>, o: Id)
    requires SettledAt(s.db, o)
    ensures SettledAt(BackgroundStep(s, statements).db, o)
  {
    if forall x <- statements :: IsBackground(x) {
      AttemptedIsQuiet(s.db, statements);
    }
  }

  lemma MissionSettles(s: System, a: Id, m: Id, b: Id, o: Id)
    requires Safe(s) && SettledAt(s.db, o)
    ensures SettledAt(MissionStep(s, a, m, b).db, o)
  {
    if InPhase(s, a, Building) {
      var p := s.running[a].occurrence;
      if Transaction(s.db, DispatchStatements(s.db, p, m, b)).Some? {
        DispatchNeedsFreshKeys(s.db, p, m, b);
        DispatchExact(s.db, p, m, b);
      }
    }
  }

  lemma AdmissionSettles(s: System, a: Id, c: Id, i: Id, b: Id, o: Id)
    requires Safe(s) && SettledAt(s.db, o)
    ensures SettledAt(AdmissionStep(s, a, c, i, b).db, o)
  {
    if InPhase(s, a, Building) {
      AdmissionExact(s.db, s.running[a].occurrence, c, i, b);
    }
  }

  predicate WritesRow(e: Event) {
    e.Mark? || e.CommitMission? || e.CommitAdmission? || e.Refuse? || e.Recover? || e.Reconcile? || e.ExpireWait? || e.Background?
  }

  lemma OnlyReads(s: System, e: Event, maxAttempts: int)
    requires !WritesRow(e)
    ensures Next(s, e, maxAttempts).db == s.db
  {
  }

  lemma StatusStepSettles(s: System, e: Event, maxAttempts: int, o: Id)
    requires e.Mark? || e.Refuse? || e.Recover? || e.ExpireWait?
    requires SettledAt(s.db, o) && !Blind(s, e, o)
    ensures SettledAt(Next(s, e, maxAttempts).db, o)
  {
    match e
    case Mark(a) => MarkSettles(s, a, o);
    case Refuse(a, outcome) => RefuseSettles(s, a, outcome, o);
    case Recover(a) => RecoverSettles(s, a, maxAttempts, o);
    case ExpireWait(p) => ExpireSettles(s, p, o);
  }

  lemma CommitStepSettles(s: System, e: Event, maxAttempts: int, o: Id)
    requires e.CommitMission? || e.CommitAdmission?
    requires Safe(s) && SettledAt(s.db, o)
    ensures SettledAt(Next(s, e, maxAttempts).db, o)
  {
    match e
    case CommitMission(a, m, b) => MissionSettles(s, a, m, b, o);
    case CommitAdmission(a, c, i, b) => AdmissionSettles(s, a, c, i, b, o);
  }

  /** Every step that is not blind to o's binding leaves a settled row of o settled. */
  lemma NotBlindSettles(s: System, e: Event, maxAttempts: int, o: Id)
    requires Safe(s) && SettledAt(s.db, o) && Bound(s.db, o) && !Blind(s, e, o)
    ensures SettledAt(Next(s, e, maxAttempts).db, o)
  {
    if e.CommitMission? || e.CommitAdmission? {
      CommitStepSettles(s, e, maxAttempts, o);
    } else if e.Reconcile? {
      ReconcileSettles(s, e.occurrence, maxAttempts, o);
    } else if e.Background? {
      BackgroundSettles(s, e.statements, o);
    } else if !WritesRow(e) {
      OnlyReads(s, e, maxAttempts);
    } else {
      StatusStepSettles(s, e, maxAttempts, o);
    }
  }

  lemma StatusWritten(t: Tables, o: Id, status: OccurrenceStatus)
    requires Integrity(t) && o in t.occurrences
    ensures WithStatus(t, o, status) == t.(occurrences := t.occurrences[o := t.occurrences[o].(status := status)])
  {
    UpdateCommits(t, o, t.occurrences[o].(status := status));
  }

  lemma BlindUnsettles(s: System, e: Event, maxAttempts: int, o: Id)
    requires Safe(s) && Blind(s, e, o)
    ensures !SettledAt(Next(s, e, maxAttempts).db, o)
  {
    match e
    case Recover(a) => StatusWritten(s.db, o, RetryStatus(s.db.occurrences[o], maxAttempts));
    case Refuse(a, outcome) => StatusWritten(s.db, o, outcome);
  }

  /** A bound occurrence that is DISPATCHING or DISPATCHED loses that status in a step exactly when
      the step is blind to its binding. */
  lemma OverwrittenIff(s: System, e: Event, maxAttempts: int, o: Id)
    requires Safe(s) && SettledAt(s.db, o) && Bound(s.db, o)
    ensures !SettledAt(Next(s, e, maxAttempts).db, o) <==> Blind(s, e, o)
  {
    if Blind(s, e, o) {
      BlindUnsettles(s, e, maxAttempts, o);
    } else {
      NotBlindSettles(s, e, maxAttempts, o);
    }
  }

  /** What reconciliation relies on: it only looks at DISPATCHING rows. */
  ghost predicate BoundAreSettled(t: Tables) {
    forall o <- t.occurrences | Bound(t, o) :: Settled(t.occurrences[o])
  }

  /** The step writes over a bound occurrence without having looked for its binding. */
  ghost predicate Overwrites(s: System, e: Event) {
    exists o <- s.db.occurrences :: Bound(s.db, o) && Blind(s, e, o)
  }

  predicate BindsNothing(t: Tables, u: Tables) {
    u.missionBindings == t.missionBindings && u.campaignBindings == t.campaignBindings && u.occurrences.Keys == t.occurrences.Keys
  }

  lemma UpdateBindsNothing(t: Tables, o: Id, row: Occurrence)
    requires o in t.occurrences
    ensures BindsNothing(t, Attempted(t, [UpdateOccurrence(o, row)]))
  {
    TransactionOfOne(t, UpdateOccurrence(o, row));
  }

  lemma StatusBindsNothing(t: Tables, o: Id, status: OccurrenceStatus)
    requires o in t.occurrences
    ensures BindsNothing(t, WithStatus(t, o, status))
  {
    UpdateBindsNothing(t, o, t.occurrences[o].(status := status));
  }

  lemma MarkBindsNothing(s: System, a: Id)
    ensures BindsNothing(s.db, MarkStep(s, a).db)
  {
    if InPhase(s, a, Claimed) {
      var o := s.running[a].occurrence;
      UpdateBindsNothing(s.db, o, s.db.occurrences[o].(status := Dispatching, attempts := s.running[a].attempts + 1));
    }
  }

  lemma ReconcileBindsNothing(s: System, o: Id, maxAttempts: int)
    ensures BindsNothing(s.db, ReconcileStep(s, o, maxAttempts).db)
  {
    if o in s.db.occurrences {
      var row := s.db.occurrences[o];
      if Bound(s.db, o) {
        UpdateBindsNothing(s.db, o, row.(status := Dispatched, targetId := Some(DownstreamOf(s.db, o))));
      } else {
        StatusBindsNothing(s.db, o, RetryStatus(row, maxAttempts));
      }
    }
  }

  lemma RefuseBindsNothing(s: System, a: Id, outcome: OccurrenceStatus)
    ensures BindsNothing(s.db, RefuseStep(s, a, outcome).db)
  {
    if InPhase(s, a, Building) {
      StatusBindsNothing(s.db, s.running[a].occurrence, outcome);
    }
  }

  lemma RecoverBindsNothing(s: System, a: Id, maxAttempts: int)
    ensures BindsNothing(s.db, RecoverStep(s, a, maxAttempts).db)
  {
    if InPhase(s, a, Broken) {
      var o := s.running[a].occurrence;
      StatusBindsNothing(s.db, o, RetryStatus(s.db.occurrences[o], maxAttempts));
    }
  }

  lemma ExpireBindsNothing(s: System, o: Id)
    ensures BindsNothing(s.db, ExpireStep(s, o).db)
  {
    if o in s.db.occurrences {
      StatusBindsNothing(s.db, o, Skipped);
    }
  }

  lemma StepBindsNothing(s: System, e: Event, maxAttempts: int)
    requires !e.CommitMission? && !e.CommitAdmission? && !e.Background?
    ensures BindsNothing(s.db, Next(s, e, maxAttempts).db)
  {
    match e
    case Mark(a) => MarkBindsNothing(s, a);
    case Refuse(a, outcome) => RefuseBindsNothing(s, a, outcome);
    case Recover(a) => RecoverBindsNothing(s, a, maxAttempts);
    case Reconcile(o) => ReconcileBindsNothing(s, o, maxAttempts);
    case ExpireWait(o) => ExpireBindsNothing(s, o);
    case _ => OnlyReads(s, e, maxAttempts);
  }

  predicate BoundAt(t: Tables, o: Id) {
    o in t.occurrences && Bound(t, o)
  }

  lemma BoundBefore(t: Tables, u: Tables, o: Id)
    requires Grows(t, u) && BindsNothing(t, u) && BoundAt(u, o)
    ensures BoundAt(t, o)
  {
  }

  lemma NewMissionBindingElsewhere(t: Tables, u: Tables, o: Id, m: Id, b: Id, p: Id)
    requires o in t.occurrences && p in t.occurrences && p != o && b !in t.missionBindings
    requires u == DispatchEffect(t, o, m, b)
    ensures Bound(u, p) == Bound(t, p)
  {
    if c :| c in t.missionBindings && t.missionBindings[c].occurrenceId == p {
      assert u.missionBindings[c].occurrenceId == p;
    }
  }

  lemma NewCampaignBindingElsewhere(t: Tables, u: Tables, o: Id, c: Id, i: Id, b: Id, p: Id)
    requires o in t.occurrences && p in t.occurrences && p != o && b !in t.campaignBindings
    requires u == AdmissionEffect(t, o, c, i, b)
    ensures Bound(u, p) == Bound(t, p)
  {
    if d :| d in t.campaignBindings && t.campaignBindings[d].occurrenceId == p {
      assert u.campaignBindings[d].occurrenceId == p;
    }
  }

  lemma MissionBindsSettled(s: System, a: Id, m: Id, b: Id, p: Id)
    requires Safe(s) && BoundAt(MissionStep(s, a, m, b).db, p) && !BoundAt(s.db, p)
    ensures SettledAt(MissionStep(s, a, m, b).db, p)
  {
    var o := s.running[a].occurrence;
    DispatchNeedsFreshKeys(s.db, o, m, b);
    DispatchExact(s.db, o, m, b);
    if p != o {
      NewMissionBindingElsewhere(s.db, MissionStep(s, a, m, b).db, o, m, b, p);
    }
  }

  lemma AdmissionBindsSettled(s: System, a: Id, c: Id, i: Id, b: Id, p: Id)
    requires Safe(s) && BoundAt(AdmissionStep(s, a, c, i, b).db, p) && !BoundAt(s.db, p)
    ensures SettledAt(AdmissionStep(s, a, c, i, b).db, p)
  {
    var o := s.running[a].occurrence;
    AdmissionExact(s.db, o, c, i, b);
    if p != o {
      NewCampaignBindingElsewhere(s.db, AdmissionStep(s, a, c, i, b).db, o, c, i, b, p);
    }
  }

  lemma QuietBound(t: Tables, u: Tables, o: Id)
    requires Immediate(t) && Quiet(t, u) && BoundAt(u, o)
    ensures BoundAt(t, o)
  {
    if b :| b in u.missionBindings && u.missionBindings[b].occurrenceId == o {
      assert t.missionBindings[b].occurrenceId in t.occurrences.Keys;
    } else {
      var b :| b in u.campaignBindings && u.campaignBindings[b].occurrenceId == o;
      assert CampaignBindingRefersTo(t.campaignBindings[b], t.occurrences.Keys, t.campaigns, t.items);
    }
  }

  lemma BackgroundBinds(s: System, statements: seq<Statement>, p: Id)
    requires Safe(s) && BoundAt(BackgroundStep(s, statements).db, p)
    ensures BoundAt(s.db, p)
  {
    if forall x <- statements :: IsBackground(x) {
      AttemptedIsQuiet(s.db, statements);
      QuietBound(s.db, Attempted(s.db, statements), p);
    }
  }

  /** Whatever binds an occurrence marks it DISPATCHED with it. */
  lemma NewlyBoundIsSettled(s: System, e: Event, maxAttempts: int, p: Id)
    requires Safe(s) && CountersOk(s) && BoundAt(Next(s, e, maxAttempts).db, p) && !BoundAt(s.db, p)
    ensures SettledAt(Next(s, e, maxAttempts).db, p)
  {
    match e
    case CommitMission(a, m, b) => MissionBindsSettled(s, a, m, b, p);
    case CommitAdmission(a, c, i, b) => AdmissionBindsSettled(s, a, c, i, b, p);
    case Background(statements) => BackgroundBinds(s, statements, p);
    case _ =>
      StepIsSafe(s, e, maxAttempts);
      StepBindsNothing(s, e, maxAttempts);
      BoundBefore(s.db, Next(s, e, maxAttempts).db, p);
  }

  lemma StepSettles(s: System, e: Event, maxAttempts: int, p: Id)
    requires Safe(s) && CountersOk(s) && BoundAreSettled(s.db) && !Overwrites(s, e)
    requires BoundAt(Next(s, e, maxAttempts).db, p)
    ensures SettledAt(Next(s, e, maxAttempts).db, p)
  {
    if BoundAt(s.db, p) {
      NotBlindSettles(s, e, maxAttempts, p);
    } else {
      NewlyBoundIsSettled(s, e, maxAttempts, p);
    }
  }

  lemma StepOverwrites(s: System, e: Event, maxAttempts: int, o: Id)
    requires Safe(s) && CountersOk(s) && BoundAt(s.db, o) && Blind(s, e, o)
    ensures !BoundAreSettled(Next(s, e, maxAttempts).db)
  {
    StepIsSafe(s, e, maxAttempts);
    var t := Next(s, e, maxAttempts).db;
    GrowsKeepsBound(s.db, t, o);
    BlindUnsettles(s, e, maxAttempts, o);
    assert BoundAt(t, o);
  }

  /** A step keeps every bound occurrence DISPATCHING or DISPATCHED exactly when it does not write
      over a bound one unseen. */
  lemma SettledStepIff(s: System, e: Event, maxAttempts: int)
    requires Safe(s) && CountersOk(s) && BoundAreSettled(s.db)
    ensures BoundAreSettled(Next(s, e, maxAttempts).db) <==> !Overwrites(s, e)
  {
    if Overwrites(s, e) {
      var o :| o in s.db.occurrences && Bound(s.db, o) && Blind(s, e, o);
      StepOverwrites(s, e, maxAttempts, o);
    } else {
      var t := Next(s, e, maxAttempts).db;
      forall p <- t.occurrences | Bound(t, p) ensures Settled(t.occurrences[p]) {
        StepSettles(s, e, maxAttempts, p);
      }
    }
  }

  ghost predicate AlwaysSettled(s: System, events: seq<Event>, maxAttempts: int)
    decreases |events|
  {
    && BoundAreSettled(s.db)
    && (events == [] || AlwaysSettled(Next(s, events[0], maxAttempts), events[1..], maxAttempts))
  }

  ghost predicate NeverOverwrites(s: System, events: seq<Event>, maxAttempts: int)
    decreases |events|
  {
    events == [] ||
    (!Overwrites(s, events[0]) && NeverOverwrites(Next(s, events[0], maxAttempts), events[1..], maxAttempts))
  }

  /** Over a whole run, bound occurrences are always DISPATCHING or DISPATCHED exactly when no step
      writes over a bound one unseen. */
  lemma {:induction false} AlwaysSettledIff(s: System, events: seq<Event>, maxAttempts: int)
    requires Safe(s) && CountersOk(s) && BoundAreSettled(s.db)
    ensures AlwaysSettled(s, events, maxAttempts) <==> NeverOverwrites(s, events, maxAttempts)
    decreases |events|
  {
    if events != [] {
      var r := Next(s, events[0], maxAttempts);
      SettledStepIff(s, events[0], maxAttempts);
      if !Overwrites(s, events[0]) {
        StepIsSafe(s, events[0], maxAttempts);
        AlwaysSettledIff(r, events[1..], maxAttempts);
      } else {
        assert !AlwaysSettled(r, events[1..], maxAttempts);
      }
    }
  }

  lemma MarkedBy(s: System, a: Id, o: Id, row: Occurrence)
    requires InPhase(s, a, Claimed) && o == s.running[a].occurrence
    requires row == s.db.occurrences[o].(status := Dispatching, attempts := s.running[a].attempts + 1)
    ensures MarkStep(s, a) == System(Attempted(s.db, [UpdateOccurrence(o, row)]), s.running[a := s.running[a].(phase := Marked)])
  {
  }

  // ---- What each step brings about ----

  /** The row of o with a new status, target and attempt counter, and nothing else changed. */
  function WithRow(t: Tables, o: Id, status: OccurrenceStatus, targetId: Option<Id>, attempts: int): Tables
    requires o in t.occurrences
  {
    t.(occurrences := t.occurrences[o := t.occurrences[o].(status := status, targetId := targetId, attempts := attempts)])
  }

  /** A free worker takes a PENDING row in hand, and no other row. */
  lemma ClaimExact(s: System, a: Id, o: Id, maxAttempts: int)
    requires a !in s.running && o in s.db.occurrences
    ensures Next(s, Claim(a, o), maxAttempts) ==
            if s.db.occurrences[o].status.Pending?
            then System(s.db, s.running[a := Attempt(o, s.db.occurrences[o].attempts, Claimed)]) else s
  {
  }

  /** The claimed row becomes DISPATCHING with one attempt more than when it was read. */
  lemma MarkExact(s: System, a: Id, maxAttempts: int)
    requires Safe(s) && CountersOk(s) && InPhase(s, a, Claimed)
    ensures var o, n := s.running[a].occurrence, s.running[a].attempts;
            Next(s, Mark(a), maxAttempts) ==
            System(WithRow(s.db, o, Dispatching, s.db.occurrences[o].targetId, n + 1), s.running[a := Attempt(o, n, Marked)])
  {
    var o := s.running[a].occurrence;
    var row := s.db.occurrences[o].(status := Dispatching, attempts := s.running[a].attempts + 1);
    MarkedBy(s, a, o, row);
    UpdateCommits(s.db, o, row);
  }

  /** An occurrence that is bound already ends the attempt with nothing written; otherwise it is built. */
  lemma LookExact(s: System, a: Id, maxAttempts: int)
    requires InPhase(s, a, Marked)
    ensures var o, n := s.running[a].occurrence, s.running[a].attempts;
            Next(s, LookForBinding(a), maxAttempts) ==
            System(s.db, if Bound(s.db, o) then s.running - {a} else s.running[a := Attempt(o, n, Building)])
  {
  }

  /** A mission comes with its origin, its binding and the DISPATCHED status, and ends the attempt; where
      the occurrence has one already or a key is taken, nothing is written and the attempt is broken. */
  lemma MissionStepExact(s: System, a: Id, m: Id, b: Id, maxAttempts: int)
    requires Safe(s) && InPhase(s, a, Building) && s.db.occurrences[s.running[a].occurrence].target.StandaloneMission?
    ensures var o, n := s.running[a].occurrence, s.running[a].attempts;
            Next(s, CommitMission(a, m, b), maxAttempts) ==
            if !Bound(s.db, o) && m !in s.db.missions && b !in s.db.missionBindings
            then System(DispatchEffect(s.db, o, m, b), s.running - {a})
            else System(s.db, s.running[a := Attempt(o, n, Broken)])
  {
    var o := s.running[a].occurrence;
    if m !in s.db.missions && b !in s.db.missionBindings {
      DispatchExact(s.db, o, m, b);
    } else if Transaction(s.db, DispatchStatements(s.db, o, m, b)).Some? {
      DispatchNeedsFreshKeys(s.db, o, m, b);
      assert false;
    }
  }

  /** The same for an admission, which AdmissionFitsIff says when to grant. */
  lemma AdmissionStepExact(s: System, a: Id, c: Id, i: Id, b: Id, maxAttempts: int)
    requires Safe(s) && InPhase(s, a, Building) && s.db.occurrences[s.running[a].occurrence].target.CampaignAdmission?
    ensures var o, n := s.running[a].occurrence, s.running[a].attempts;
            Next(s, CommitAdmission(a, c, i, b), maxAttempts) ==
            if AdmissionFits(s.db, o, c, i, b) then System(AdmissionEffect(s.db, o, c, i, b), s.running - {a})
            else System(s.db, s.running[a := Attempt(o, n, Broken)])
  {
    AdmissionExact(s.db, s.running[a].occurrence, c, i, b);
  }

  /** An admission fits where neither the occurrence nor the item is bound, the binding is new and the
      campaign and the item exist. */
  lemma AdmissionFitsIff(t: Tables, o: Id, c: Id, i: Id, b: Id)
    requires o in t.occurrences && t.occurrences[o].target.CampaignAdmission?
    ensures AdmissionFits(t, o, c, i, b) <==>
            && !Bound(t, o) && b !in t.campaignBindings && c in t.campaigns && i in t.items
            && forall d <- t.campaignBindings :: t.campaignBindings[d].itemId != i
  {
    if d :| d in t.campaignBindings && SharesItemKey(t.campaignBindings[d], CampaignBinding(o, c, i)) {
      assert t.campaignBindings[d].occurrenceId == o || t.campaignBindings[d].itemId == i;
    }
    if d :| d in t.campaignBindings && (t.campaignBindings[d].occurrenceId == o || t.campaignBindings[d].itemId == i) {
      assert SharesItemKey(t.campaignBindings[d], CampaignBinding(o, c, i));
    }
  }

  /** A refused admission leaves the answer as the status and ends the attempt. */
  lemma RefuseExact(s: System, a: Id, outcome: OccurrenceStatus, maxAttempts: int)
    requires Safe(s) && InPhase(s, a, Building) && s.db.occurrences[s.running[a].occurrence].target.CampaignAdmission?
    requires outcome == Waiting || outcome == Skipped || outcome == Failed
    ensures var o := s.running[a].occurrence;
            var row := s.db.occurrences[o];
            Next(s, Refuse(a, outcome), maxAttempts) ==
            System(WithRow(s.db, o, outcome, row.targetId, row.attempts), s.running - {a})
  {
    StatusWritten(s.db, s.running[a].occurrence, outcome);
  }

  /** An exception while building breaks the attempt; a crash forgets it. Neither writes anything. */
  lemma FailureExact(s: System, a: Id, maxAttempts: int)
    requires InPhase(s, a, Building)
    ensures Next(s, Break(a), maxAttempts) ==
            System(s.db, s.running[a := Attempt(s.running[a].occurrence, s.running[a].attempts, Broken)])
    ensures Next(s, Crash(a), maxAttempts) == System(s.db, s.running - {a})
  {
  }

  /** A WAITING row whose time is up is SKIPPED; no other row is touched. */
  lemma ExpireExact(s: System, o: Id, maxAttempts: int)
    requires Safe(s) && o in s.db.occurrences
    ensures var row := s.db.occurrences[o];
            Next(s, ExpireWait(o), maxAttempts) ==
            if row.status.Waiting? then s.(db := WithRow(s.db, o, Skipped, row.targetId, row.attempts)) else s
  {
    StatusWritten(s.db, o, Skipped);
  }

  /** A run goes on with one more event. */
  lemma {:induction false} RunGoesOn(s: System, events: seq<Event>, n: nat, maxAttempts: int)
    requires |events| == n + 1
    ensures RunEvents(s, events, maxAttempts) == Next(RunEvents(s, events[..n], maxAttempts), events[n], maxAttempts)
    decreases n
  {
    if n > 0 {
      assert events[1..][..n - 1] == events[..n][1..];
      RunGoesOn(Next(s, events[0], maxAttempts), events[1..], n - 1, maxAttempts);
    } else {
      assert events[1..] == [];
    }
  }

  lemma RunFour(s: System, e: Event, f: Event, g: Event, h: Event, maxAttempts: int, c: System, r: System, l: System)
    requires c == Next(s, e, maxAttempts) && r == Next(c, f, maxAttempts) && l == Next(r, g, maxAttempts)
    ensures RunEvents(s, [e, f, g, h], maxAttempts) == Next(l, h, maxAttempts)
  {
    assert [e, f, g, h][1..] == [f, g, h] && [f, g, h][1..] == [g, h] && [g, h][1..] == [h] && [h][1..] == [];
    assert RunEvents(s, [e, f, g, h], maxAttempts) == RunEvents(c, [f, g, h], maxAttempts);
    assert RunEvents(r, [g, h], maxAttempts) == RunEvents(l, [h], maxAttempts);
  }

  lemma ClaimedAlone(s: System, a: Id, o: Id, maxAttempts: int, c: System)
    requires Safe(s) && CountersOk(s) && a !in s.running && o in s.db.occurrences && s.db.occurrences[o].status.Pending?
    requires c == System(s.db, s.running[a := Attempt(o, s.db.occurrences[o].attempts, Claimed)])
    ensures c == Next(s, Claim(a, o), maxAttempts) && Safe(c) && CountersOk(c) && InPhase(c, a, Claimed)
  {
    ClaimExact(s, a, o, maxAttempts);
    assert OccurrenceRowOk(s.db.occurrences[o]);
  }

  lemma MarkedAlone(c: System, a: Id, o: Id, n: int, maxAttempts: int, r: System)
    requires Safe(c) && CountersOk(c) && InPhase(c, a, Claimed) && c.running[a] == Attempt(o, n, Claimed)
    requires r.db == WithRow(c.db, o, Dispatching, c.db.occurrences[o].targetId, n + 1)
    requires r.running == c.running[a := Attempt(o, n, Marked)]
    ensures r == Next(c, Mark(a), maxAttempts)
  {
    MarkExact(c, a, maxAttempts);
  }

  lemma MarkedIsSafe(c: System, a: Id, maxAttempts: int, r: System)
    requires Safe(c) && CountersOk(c) && r == Next(c, Mark(a), maxAttempts)
    ensures Safe(r)
  {
    AttemptStepIsSafe(c, Mark(a), maxAttempts);
  }

  /** The tables with the occurrence dispatched on one attempt more. */
  function DispatchedAlone(t: Tables, o: Id, m: Id, b: Id): Tables
    requires o in t.occurrences
  {
    var row := t.occurrences[o];
    t.(missions := t.missions[m := Mission(Some(o))],
       missionBindings := t.missionBindings[b := MissionBinding(o, m)],
       occurrences := t.occurrences[o := row.(status := Dispatched, targetId := Some(m), attempts := row.attempts + 1)])
  }

  lemma DispatchedRow(t: Tables, o: Id, m: Id, b: Id, u: Tables)
    requires o in t.occurrences && u == WithRow(t, o, Dispatching, t.occurrences[o].targetId, t.occurrences[o].attempts + 1)
    ensures o in u.occurrences && u.occurrences[o].target == t.occurrences[o].target && Bound(u, o) == Bound(t, o)
    ensures DispatchEffect(u, o, m, b) == DispatchedAlone(t, o, m, b)
  {
  }

  lemma BuiltAlone(r: System, a: Id, o: Id, n: int, m: Id, b: Id, maxAttempts: int, l: System)
    requires Safe(r) && InPhase(r, a, Marked) && r.running[a] == Attempt(o, n, Marked)
    requires r.db.occurrences[o].target.StandaloneMission? && !Bound(r.db, o)
    requires m !in r.db.missions && b !in r.db.missionBindings
    requires l == System(r.db, r.running[a := Attempt(o, n, Building)])
    ensures l == Next(r, LookForBinding(a), maxAttempts)
    ensures Next(l, CommitMission(a, m, b), maxAttempts) == System(DispatchEffect(r.db, o, m, b), r.running - {a})
  {
    LookExact(r, a, maxAttempts);
    MissionStepExact(l, a, m, b, maxAttempts);
    assert l.running - {a} == r.running - {a};
  }

  lemma InAndOut(running: map<Id, Attempt>, a: Id, x: Attempt, y: Attempt)
    requires a !in running
    ensures running[a := x][a := y] - {a} == running
  {
  }

  lemma AloneMarks(s: System, a: Id, o: Id, n: int, maxAttempts: int, c: System, r: System)
    requires Safe(s) && CountersOk(s) && a !in s.running && o in s.db.occurrences
    requires s.db.occurrences[o].status.Pending? && s.db.occurrences[o].attempts == n
    requires c == System(s.db, s.running[a := Attempt(o, n, Claimed)])
    requires r.db == WithRow(s.db, o, Dispatching, s.db.occurrences[o].targetId, n + 1)
    requires r.running == c.running[a := Attempt(o, n, Marked)]
    ensures c == Next(s, Claim(a, o), maxAttempts) && r == Next(c, Mark(a), maxAttempts) && Safe(r)
  {
    ClaimedAlone(s, a, o, maxAttempts, c);
    MarkedAlone(c, a, o, n, maxAttempts, r);
    MarkedIsSafe(c, a, maxAttempts, r);
  }

  lemma AloneBuilds(t: Tables, a: Id, o: Id, n: int, m: Id, b: Id, maxAttempts: int, r: System, l: System)
    requires Safe(r) && o in t.occurrences && n == t.occurrences[o].attempts
    requires r.db == WithRow(t, o, Dispatching, t.occurrences[o].targetId, n + 1)
    requires a in r.running && r.running[a] == Attempt(o, n, Marked)
    requires t.occurrences[o].target.StandaloneMission? && !Bound(t, o) && m !in t.missions && b !in t.missionBindings
    requires l == System(r.db, r.running[a := Attempt(o, n, Building)])
    ensures l == Next(r, LookForBinding(a), maxAttempts)
    ensures Next(l, CommitMission(a, m, b), maxAttempts) == System(DispatchedAlone(t, o, m, b), r.running - {a})
  {
    DispatchedRow(t, o, m, b, r.db);
    BuiltAlone(r, a, o, n, m, b, maxAttempts, l);
  }

  /** Given new keys, a worker that claims a due, unbound row and is not disturbed dispatches it: the
      mission exists with its origin, is bound, and the row is DISPATCHED, points to it and counts one
      attempt more. Nothing else is different afterwards. */
  lemma AloneDispatches(s: System, a: Id, o: Id, m: Id, b: Id, maxAttempts: int)
    requires Safe(s) && CountersOk(s) && a !in s.running && o in s.db.occurrences
    requires s.db.occurrences[o].status.Pending? && s.db.occurrences[o].target.StandaloneMission? && !Bound(s.db, o)
    requires m !in s.db.missions && b !in s.db.missionBindings
    ensures RunEvents(s, [Claim(a, o), Mark(a), LookForBinding(a), CommitMission(a, m, b)], maxAttempts) ==
            System(DispatchedAlone(s.db, o, m, b), s.running)
  {
    var n := s.db.occurrences[o].attempts;
    var c := System(s.db, s.running[a := Attempt(o, n, Claimed)]);
    var t := WithRow(s.db, o, Dispatching, s.db.occurrences[o].targetId, n + 1);
    var r := System(t, c.running[a := Attempt(o, n, Marked)]);
    var l := System(t, r.running[a := Attempt(o, n, Building)]);
    AloneMarks(s, a, o, n, maxAttempts, c, r);
    AloneBuilds(s.db, a, o, n, m, b, maxAttempts, r, l);
    RunFour(s, Claim(a, o), Mark(a), LookForBinding(a), CommitMission(a, m, b), maxAttempts, c, r, l);
    InAndOut(s.running, a, c.running[a], r.running[a]);
  }

  // ---- A run of the locked service that writes over a binding ----

  /** The steps that claim, lock or write the row of o. */
  predicate NeedsRow(s: System, e: Event, o: Id) {
    match e
    case Claim(_, p) => p == o
    case Reconcile(p) => p == o
    case ExpireWait(p) => p == o
    case Mark(a) => a in s.running && s.running[a].occurrence == o
    case CommitMission(a, _, _) => a in s.running && s.running[a].occurrence == o
    case CommitAdmission(a, _, _, _) => a in s.running && s.running[a].occurrence == o
    case Refuse(a, _) => a in s.running && s.running[a].occurrence == o
    case Recover(a) => a in s.running && s.running[a].occurrence == o
    case _ => false
  }

  /** FOR UPDATE SKIP LOCKED: from its claim to its mark a row is left alone by everyone else. */
  predicate Granted(s: System, e: Event) {
    forall a <- s.running | s.running[a].phase.Claimed? && NeedsRow(s, e, s.running[a].occurrence) ::
      e.Mark? && e.attempt == a
  }

  ghost predicate GrantedRun(s: System, events: seq<Event>, maxAttempts: int)
    decreases |events|
  {
    events == [] ||
    (Granted(s, events[0]) && GrantedRun(Next(s, events[0], maxAttempts), events[1..], maxAttempts))
  }

  const SCHEDULE_0 := Schedule(Active, Some(0), 0, None, None, Some(60))
  const VERSION_0 := Version(0, 1, None, Some(60), RunLatestOnly, 1, CampaignAdmission, 7)
  const TICK_0 := Occurrence(0, 0, 0, Pending, "rec-occ:0", CampaignAdmission, None, 0)

  /** One occurrence, in the given row state, of a schedule that admits the items of campaign 7. */
  function OneTick(row: Occurrence): Tables {
    Tables(map[0 := SCHEDULE_0], map[0 := VERSION_0], map[0 := row], map[], map[], map[], {7}, {5})
  }

  predicate Undispatched(row: Occurrence) {
    row == TICK_0.(status := row.status, attempts := row.attempts) && row.attempts >= 0 && !row.status.Dispatched?
  }

  lemma OneTickIsSafe(row: Occurrence)
    requires Undispatched(row)
    ensures Integrity(OneTick(row)) && OriginsBound(OneTick(row)) && DispatchedBound(OneTick(row)) && !Bound(OneTick(row), 0)
  {
    var t := OneTick(row);
    assert VersionRowOk(VERSION_0) && ScheduleRowOk(SCHEDULE_0) && OccurrenceRowOk(row);
    assert OwnedVersion(t.versions, 0, 0);
  }

  lemma OneTickUpdate(row: Occurrence, after: Occurrence)
    requires Undispatched(row) && Undispatched(after)
    ensures Attempted(OneTick(row), [UpdateOccurrence(0, after)]) == OneTick(after)
  {
    OneTickIsSafe(row);
    UpdateCommits(OneTick(row), 0, after);
    assert map[0 := row][0 := after] == map[0 := after];
  }

  lemma MarkTick(row: Occurrence, running: map<Id, Attempt>, a: Id)
    requires Undispatched(row) && a in running && running[a] == Attempt(0, row.attempts, Claimed)
    ensures MarkStep(System(OneTick(row), running), a) ==
            System(OneTick(row.(status := Dispatching, attempts := row.attempts + 1)),
                   running[a := Attempt(0, row.attempts, Marked)])
  {
    var after := row.(status := Dispatching, attempts := row.attempts + 1);
    MarkedBy(System(OneTick(row), running), a, 0, after);
    OneTickUpdate(row, after);
  }

  lemma LookTick(row: Occurrence, running: map<Id, Attempt>, a: Id, k: int)
    requires Undispatched(row) && a in running && running[a] == Attempt(0, k, Marked)
    ensures LookStep(System(OneTick(row), running), a) ==
            System(OneTick(row), running[a := Attempt(0, k, Building)])
  {
    OneTickIsSafe(row);
  }

  lemma ReconcileTick(row: Occurrence, running: map<Id, Attempt>)
    requires Undispatched(row) && row.status.Dispatching? && row.attempts < 3
    ensures ReconcileStep(System(OneTick(row), running), 0, 3) == System(OneTick(row.(status := Pending)), running)
  {
    OneTickIsSafe(row);
    OneTickUpdate(row, row.(status := Pending));
  }

  /** Worker 1 claims and marks the tick and goes on to admit an item, slowly. */
  lemma SlowWorker(s0: System, events: seq<Event>) returns (s: System)
    requires OverlapEvents(events) && s0 == System(OneTick(TICK_0), map[])
    ensures s == System(OneTick(TICK_0.(status := Dispatching, attempts := 1)), map[1 := Attempt(0, 0, Building)])
    ensures RunEvents(s0, events, 3) == RunEvents(s, events[3..], 3)
    ensures GrantedRun(s, events[3..], 3) ==> GrantedRun(s0, events, 3)
  {
    var row := TICK_0.(status := Dispatching, attempts := 1);
    var s1 := System(OneTick(TICK_0), map[1 := Attempt(0, 0, Claimed)]);
    var s2 := System(OneTick(row), map[1 := Attempt(0, 0, Marked)]);
    s := System(OneTick(row), map[1 := Attempt(0, 0, Building)]);
    MarkTick(TICK_0, s1.running, 1);
    LookTick(row, s2.running, 1, 0);
    assert events[0..] == events;
    RunStep(s0, events, 0, 3, s1);
    RunStep(s1, events, 1, 3, s2);
    RunStep(s2, events, 2, 3, s);
  }

  lemma RunStep(s: System, events: seq<Event>, i: nat, maxAttempts: int, r: System)
    requires i < |events| && r == Next(s, events[i], maxAttempts)
    ensures RunEvents(s, events[i..], maxAttempts) == RunEvents(r, events[i + 1..], maxAttempts)
    ensures Granted(s, events[i]) && GrantedRun(r, events[i + 1..], maxAttempts) ==> GrantedRun(s, events[i..], maxAttempts)
  {
    assert events[i..][1..] == events[i + 1..];
  }

  ghost predicate OverlapEvents(events: seq<Event>) {
    && |events| == 9
    && events[0] == Claim(1, 0) && events[1] == Mark(1) && events[2] == LookForBinding(1)
    && events[3] == Reconcile(0)
    && events[4] == Claim(2, 0) && events[5] == Mark(2) && events[6] == LookForBinding(2)
    && events[7] == CommitAdmission(1, 7, 5, 20) && events[8] == Refuse(2, Skipped)
  }

  /** The reconciler takes the row back, and worker 2 claims it. */
  lemma TakenBack(s3: System, events: seq<Event>) returns (s: System)
    requires OverlapEvents(events)
    requires s3 == System(OneTick(TICK_0.(status := Dispatching, attempts := 1)), map[1 := Attempt(0, 0, Building)])
    ensures s == System(OneTick(TICK_0.(attempts := 1)), map[1 := Attempt(0, 0, Building), 2 := Attempt(0, 1, Claimed)])
    ensures RunEvents(s3, events[3..], 3) == RunEvents(s, events[5..], 3)
    ensures GrantedRun(s, events[5..], 3) ==> GrantedRun(s3, events[3..], 3)
  {
    var s4 := System(OneTick(TICK_0.(attempts := 1)), s3.running);
    s := System(s4.db, s4.running[2 := Attempt(0, 1, Claimed)]);
    ReconcileTick(TICK_0.(status := Dispatching, attempts := 1), s3.running);
    RunStep(s3, events, 3, 3, s4);
    RunStep(s4, events, 4, 3, s);
  }

  lemma SecondWorker(s5: System, events: seq<Event>) returns (s: System)
    requires OverlapEvents(events)
    requires s5 == System(OneTick(TICK_0.(attempts := 1)), map[1 := Attempt(0, 0, Building), 2 := Attempt(0, 1, Claimed)])
    ensures s == System(OneTick(TICK_0.(status := Dispatching, attempts := 2)),
                        map[1 := Attempt(0, 0, Building), 2 := Attempt(0, 1, Building)])
    ensures RunEvents(s5, events[5..], 3) == RunEvents(s, events[7..], 3)
    ensures GrantedRun(s, events[7..], 3) ==> GrantedRun(s5, events[5..], 3)
  {
    var marked := TICK_0.(status := Dispatching, attempts := 2);
    var s6 := System(OneTick(marked), s5.running[2 := Attempt(0, 1, Marked)]);
    s := System(OneTick(marked), s6.running[2 := Attempt(0, 1, Building)]);
    MarkTick(TICK_0.(attempts := 1), s5.running, 2);
    LookTick(marked, s6.running, 2, 1);
    RunStep(s5, events, 5, 3, s6);
    RunStep(s6, events, 6, 3, s);
  }

  lemma FirstAdmits(row: Occurrence, running: map<Id, Attempt>, a: Id)
    requires Undispatched(row) && a in running && running[a].occurrence == 0 && running[a].phase.Building?
    ensures var s := System(OneTick(row), running);
            AdmissionStep(s, a, 7, 5, 20) == System(AdmissionEffect(s.db, 0, 7, 5, 20), running - {a})
  {
    OneTickIsSafe(row);
    AdmissionExact(OneTick(row), 0, 7, 5, 20);
  }

  lemma SecondFindsNone(row: Occurrence)
    requires Undispatched(row)
    ensures var t := AdmissionEffect(OneTick(row), 0, 7, 5, 20);
            WithStatus(t, 0, Skipped) == t.(occurrences := map[0 := t.occurrences[0].(status := Skipped)])
  {
    var t := AdmissionEffect(OneTick(row), 0, 7, 5, 20);
    OneTickIsSafe(row);
    AdmissionExact(OneTick(row), 0, 7, 5, 20);
    TransactionKeepsIntegrity(OneTick(row), AdmissionStatements(OneTick(row), 0, 7, 5, 20));
    StatusWritten(t, 0, Skipped);
    assert t.occurrences[0 := t.occurrences[0].(status := Skipped)] == map[0 := t.occurrences[0].(status := Skipped)];
  }

  /** Worker 1 admits the item; worker 2, past its look for a binding, finds none left. */
  lemma SecondSkips(s7: System, events: seq<Event>) returns (s: System)
    requires OverlapEvents(events)
    requires s7 == System(OneTick(TICK_0.(status := Dispatching, attempts := 2)),
                          map[1 := Attempt(0, 0, Building), 2 := Attempt(0, 1, Building)])
    ensures s == RunEvents(s7, events[7..], 3) && GrantedRun(s7, events[7..], 3)
    ensures SkippedWithItem(s)
  {
    var row := TICK_0.(status := Dispatching, attempts := 2);
    var s8 := System(AdmissionEffect(OneTick(row), 0, 7, 5, 20), map[2 := Attempt(0, 1, Building)]);
    FirstAdmits(row, s7.running, 1);
    s := LastStep(row, s8, events);
    RunStep(s7, events, 7, 3, s8);
  }

  lemma LastStep(row: Occurrence, s8: System, events: seq<Event>) returns (s: System)
    requires OverlapEvents(events) && Undispatched(row)
    requires s8 == System(AdmissionEffect(OneTick(row), 0, 7, 5, 20), map[2 := Attempt(0, 1, Building)])
    ensures s == RunEvents(s8, events[8..], 3) && GrantedRun(s8, events[8..], 3)
    ensures SkippedWithItem(s)
  {
    SecondFindsNone(row);
    s := RefuseStep(s8, 2, Skipped);
    RunStep(s8, events, 8, 3, s);
    assert events[9..] == [];
    assert s.db.campaignBindings[20] == CampaignBinding(0, 7, 5);
  }

  /** The occurrence is SKIPPED, bound to item 5, and nobody works on it any more. */
  predicate SkippedWithItem(s: System) {
    0 in s.db.occurrences && s.db.occurrences[0].status.Skipped? && HasItem(s.db, 0, 5) && s.running == map[]
  }

  /** The reconciler takes a slow worker's row back and a second worker claims it. Both have looked
      for a binding when the first one admits the campaign's last item; the second one then finds
      no pending item and writes SKIPPED over the admitted occurrence. All row locks are granted. */
  lemma OverlappingWorkersSkipAdmittedItem(s: System, events: seq<Event>)
    requires s == System(OneTick(TICK_0), map[]) && OverlapEvents(events)
    ensures Safe(s) && GrantedRun(s, events, 3)
    ensures SkippedWithItem(RunEvents(s, events, 3))
  {
    OneTickIsSafe(TICK_0);
    var s3 := SlowWorker(s, events);
    var s5 := TakenBack(s3, events);
    var s7 := SecondWorker(s5, events);
    var s9 := SecondSkips(s7, events);
  }

  // ---- One worker at a time on each occurrence ----

  predicate Idle(s: System, o: Id) {
    forall a <- s.running :: s.running[a].occurrence != o
  }

  /** No claim and no reconciliation of an occurrence that some worker still holds. */
  predicate Exclusive(s: System, e: Event) {
    match e
    case Claim(_, o) => Idle(s, o)
    case Reconcile(o) => Idle(s, o)
    case _ => true
  }

  ghost predicate ExclusiveRun(s: System, events: seq<Event>, maxAttempts: int)
    decreases |events|
  {
    events == [] ||
    (Exclusive(s, events[0]) && ExclusiveRun(Next(s, events[0], maxAttempts), events[1..], maxAttempts))
  }

  /** A claimed row is still PENDING; a row being worked on is DISPATCHING and unbound. */
  predicate Follows(t: Tables, work: Attempt) {
    && work.occurrence in t.occurrences
    && if work.phase.Claimed? then t.occurrences[work.occurrence].status.Pending?
       else t.occurrences[work.occurrence].status.Dispatching? && !Bound(t, work.occurrence)
  }

  ghost predicate Working(t: Tables, running: map<Id, Attempt>) {
    && (forall a <- running :: Follows(t, running[a]))
    && (forall a <- running, b <- running | a != b :: running[a].occurrence != running[b].occurrence)
  }

  ghost predicate InStep(s: System) {
    BoundAreSettled(s.db) && Working(s.db, s.running)
  }

  /** What an attempt relies on is its own row and whether it is bound. */
  predicate SameFor(t: Tables, u: Tables, o: Id) {
    o in t.occurrences ==> o in u.occurrences && u.occurrences[o] == t.occurrences[o] && Bound(u, o) == Bound(t, o)
  }

  /** One attempt moves on, or ends, and only its own occurrence changes. */
  lemma OneMovesOn(t: Tables, running: map<Id, Attempt>, a: Id, u: Tables, work: Attempt)
    requires Working(t, running) && a in running && work.occurrence == running[a].occurrence
    requires forall p <- t.occurrences | p != work.occurrence :: SameFor(t, u, p)
    ensures Working(u, running - {a})
    ensures Follows(u, work) ==> Working(u, running[a := work])
  {
    forall b <- running | b != a ensures Follows(u, running[b]) {
      assert Follows(t, running[b]);
      assert SameFor(t, u, running[b].occurrence);
    }
  }

  /** Nobody holds o, and only o changes. */
  lemma NobodyNotices(t: Tables, running: map<Id, Attempt>, o: Id, u: Tables)
    requires Working(t, running) && forall a <- running :: running[a].occurrence != o
    requires forall p <- t.occurrences | p != o :: SameFor(t, u, p)
    ensures Working(u, running)
  {
    forall b <- running ensures Follows(u, running[b]) {
      assert Follows(t, running[b]);
      assert SameFor(t, u, running[b].occurrence);
    }
  }

  lemma UpdateElsewhere(t: Tables, o: Id, row: Occurrence, p: Id)
    requires o in t.occurrences && p in t.occurrences && p != o
    ensures SameFor(t, Attempted(t, [UpdateOccurrence(o, row)]), p)
  {
    TransactionOfOne(t, UpdateOccurrence(o, row));
  }

  lemma UpdatedElsewhere(t: Tables, o: Id, row: Occurrence, u: Tables)
    requires o in t.occurrences && u == Attempted(t, [UpdateOccurrence(o, row)])
    ensures forall p <- t.occurrences | p != o :: SameFor(t, u, p)
  {
    forall p <- t.occurrences | p != o ensures SameFor(t, u, p) {
      UpdateElsewhere(t, o, row, p);
    }
  }

  lemma ClaimWorks(s: System, a: Id, o: Id)
    requires Working(s.db, s.running) && Idle(s, o)
    ensures Working(s.db, ClaimStep(s, a, o).running)
  {
  }

  lemma MarkedFollows(t: Tables, row: Occurrence, work: Attempt, u: Tables)
    requires work.occurrence in t.occurrences && !Bound(t, work.occurrence) && !work.phase.Claimed?
    requires row.status.Dispatching? && row.target == t.occurrences[work.occurrence].target
    requires u == t.(occurrences := t.occurrences[work.occurrence := row])
    ensures Follows(u, work)
  {
  }

  /** A claimed row is PENDING, hence unbound. */
  lemma ClaimedIsUnbound(t: Tables, work: Attempt)
    requires BoundAreSettled(t) && Follows(t, work)
    ensures !Bound(t, work.occurrence)
  {
  }

  lemma MarkedWorks(t: Tables, running: map<Id, Attempt>, a: Id, row: Occurrence, u: Tables)
    requires Working(t, running) && a in running && running[a].occurrence in t.occurrences
    requires !Bound(t, running[a].occurrence)
    requires row.status.Dispatching? && row.target == t.occurrences[running[a].occurrence].target
    requires u == t.(occurrences := t.occurrences[running[a].occurrence := row])
    requires u == Attempted(t, [UpdateOccurrence(running[a].occurrence, row)])
    ensures Working(u, running[a := running[a].(phase := Marked)])
  {
    MarkedFollows(t, row, running[a].(phase := Marked), u);
    UpdatedElsewhere(t, running[a].occurrence, row, u);
    OneMovesOn(t, running, a, u, running[a].(phase := Marked));
  }

  lemma MarkWorks(s: System, a: Id)
    requires Safe(s) && CountersOk(s) && InStep(s)
    ensures Working(MarkStep(s, a).db, MarkStep(s, a).running)
  {
    if InPhase(s, a, Claimed) {
      var o := s.running[a].occurrence;
      var row := s.db.occurrences[o].(status := Dispatching, attempts := s.running[a].attempts + 1);
      var u := Attempted(s.db, [UpdateOccurrence(o, row)]);
      MarkedBy(s, a, o, row);
      assert !Bound(s.db, o) by {
        ClaimedIsUnbound(s.db, s.running[a]);
      }
      assert u == s.db.(occurrences := s.db.occurrences[o := row]) by {
        UpdateCommits(s.db, o, row);
      }
      MarkedWorks(s.db, s.running, a, row, u);
    }
  }

  /** Moving on within the working phases needs nothing new of the row. */
  lemma PhaseWorks(s: System, a: Id, from: Phase, to: Phase)
    requires Working(s.db, s.running) && InPhase(s, a, from) && !from.Claimed? && !to.Claimed?
    ensures Working(s.db, Advance(s, a, to).running)
  {
    assert Follows(s.db, s.running[a]);
    OneMovesOn(s.db, s.running, a, s.db, s.running[a].(phase := to));
  }

  lemma LookWorks(s: System, a: Id)
    requires Working(s.db, s.running)
    ensures Working(s.db, LookStep(s, a).running)
  {
    if InPhase(s, a, Marked) {
      PhaseWorks(s, a, Marked, Building);
    }
  }

  lemma MissionWorks(s: System, a: Id, m: Id, b: Id)
    requires Safe(s) && Working(s.db, s.running)
    ensures Working(MissionStep(s, a, m, b).db, MissionStep(s, a, m, b).running)
  {
    if InPhase(s, a, Building) {
      var o := s.running[a].occurrence;
      PhaseWorks(s, a, Building, Broken);
      if Transaction(s.db, DispatchStatements(s.db, o, m, b)).Some? {
        DispatchNeedsFreshKeys(s.db, o, m, b);
        DispatchExact(s.db, o, m, b);
        var u := DispatchEffect(s.db, o, m, b);
        forall p <- s.db.occurrences | p != o ensures SameFor(s.db, u, p) {
          NewMissionBindingElsewhere(s.db, u, o, m, b, p);
        }
        OneMovesOn(s.db, s.running, a, u, s.running[a]);
      }
    }
  }

  lemma AdmissionWorks(s: System, a: Id, c: Id, i: Id, b: Id)
    requires Safe(s) && Working(s.db, s.running)
    ensures Working(AdmissionStep(s, a, c, i, b).db, AdmissionStep(s, a, c, i, b).running)
  {
    if InPhase(s, a, Building) {
      var o := s.running[a].occurrence;
      PhaseWorks(s, a, Building, Broken);
      AdmissionExact(s.db, o, c, i, b);
      if AdmissionFits(s.db, o, c, i, b) {
        var u := AdmissionEffect(s.db, o, c, i, b);
        forall p <- s.db.occurrences | p != o ensures SameFor(s.db, u, p) {
          NewCampaignBindingElsewhere(s.db, u, o, c, i, b, p);
        }
        OneMovesOn(s.db, s.running, a, u, s.running[a]);
      }
    }
  }

  lemma LeaveWorks(s: System, a: Id, status: OccurrenceStatus)
    requires Working(s.db, s.running) && a in s.running && s.running[a].occurrence in s.db.occurrences
    ensures Working(WithStatus(s.db, s.running[a].occurrence, status), s.running - {a})
  {
    var o := s.running[a].occurrence;
    var u := WithStatus(s.db, o, status);
    UpdatedElsewhere(s.db, o, s.db.occurrences[o].(status := status), u);
    OneMovesOn(s.db, s.running, a, u, s.running[a]);
  }

  lemma RefuseWorks(s: System, a: Id, outcome: OccurrenceStatus)
    requires Working(s.db, s.running)
    ensures Working(RefuseStep(s, a, outcome).db, RefuseStep(s, a, outcome).running)
  {
    if InPhase(s, a, Building) {
      LeaveWorks(s, a, outcome);
    }
  }

  lemma RecoverWorks(s: System, a: Id, maxAttempts: int)
    requires Working(s.db, s.running)
    ensures Working(RecoverStep(s, a, maxAttempts).db, RecoverStep(s, a, maxAttempts).running)
  {
    if InPhase(s, a, Broken) {
      LeaveWorks(s, a, RetryStatus(s.db.occurrences[s.running[a].occurrence], maxAttempts));
    }
  }

  lemma ReconcileWorks(s: System, o: Id, maxAttempts: int)
    requires Working(s.db, s.running) && Idle(s, o)
    ensures Working(ReconcileStep(s, o, maxAttempts).db, s.running)
  {
    if o in s.db.occurrences {
      var row, u := s.db.occurrences[o], Reconciled(s.db, o, maxAttempts);
      if Bound(s.db, o) {
        UpdatedElsewhere(s.db, o, row.(status := Dispatched, targetId := Some(DownstreamOf(s.db, o))), u);
      } else {
        UpdatedElsewhere(s.db, o, row.(status := RetryStatus(row, maxAttempts)), u);
      }
      NobodyNotices(s.db, s.running, o, u);
    }
  }

  lemma ExpireWorks(s: System, o: Id)
    requires Working(s.db, s.running)
    ensures Working(ExpireStep(s, o).db, s.running)
  {
    if o in s.db.occurrences && s.db.occurrences[o].status.Waiting? {
      forall a <- s.running ensures s.running[a].occurrence != o {
        assert Follows(s.db, s.running[a]);
      }
      var u := WithStatus(s.db, o, Skipped);
      UpdatedElsewhere(s.db, o, s.db.occurrences[o].(status := Skipped), u);
      NobodyNotices(s.db, s.running, o, u);
    }
  }

  lemma QuietWorks(t: Tables, u: Tables, running: map<Id, Attempt>)
    requires Quiet(t, u) && Working(t, running)
    ensures Working(u, running)
  {
    forall a <- running ensures Follows(u, running[a]) {
      assert Follows(t, running[a]);
    }
  }

  lemma BackgroundWorks(s: System, statements: seq<Statement>)
    requires Working(s.db, s.running)
    ensures Working(BackgroundStep(s, statements).db, s.running)
  {
    if forall x <- statements :: IsBackground(x) {
      AttemptedIsQuiet(s.db, statements);
      QuietWorks(s.db, Attempted(s.db, statements), s.running);
    }
  }

  lemma FinishWorks(s: System, a: Id)
    requires Working(s.db, s.running)
    ensures Working(s.db, s.running - {a})
  {
  }

  lemma CommitStepWorks(s: System, e: Event, maxAttempts: int)
    requires e.CommitMission? || e.CommitAdmission? || e.Mark?
    requires Safe(s) && CountersOk(s) && InStep(s)
    ensures Working(Next(s, e, maxAttempts).db, Next(s, e, maxAttempts).running)
  {
    match e
    case CommitMission(a, m, b) => MissionWorks(s, a, m, b);
    case CommitAdmission(a, c, i, b) => AdmissionWorks(s, a, c, i, b);
    case Mark(a) => MarkWorks(s, a);
  }

  lemma RowStepWorks(s: System, e: Event, maxAttempts: int)
    requires e.Refuse? || e.Recover? || e.Reconcile? || e.ExpireWait?
    requires Working(s.db, s.running) && Exclusive(s, e)
    ensures Working(Next(s, e, maxAttempts).db, Next(s, e, maxAttempts).running)
  {
    match e
    case Refuse(a, outcome) => RefuseWorks(s, a, outcome);
    case Recover(a) => RecoverWorks(s, a, maxAttempts);
    case Reconcile(o) => ReconcileWorks(s, o, maxAttempts);
    case ExpireWait(o) => ExpireWorks(s, o);
  }

  lemma QuietStepWorks(s: System, e: Event, maxAttempts: int)
    requires e.Claim? || e.LookForBinding? || e.Break? || e.Crash? || e.Background?
    requires Working(s.db, s.running) && Exclusive(s, e)
    ensures Working(Next(s, e, maxAttempts).db, Next(s, e, maxAttempts).running)
  {
    match e
    case Claim(a, o) => ClaimWorks(s, a, o);
    case LookForBinding(a) => LookWorks(s, a); FinishWorks(s, a);
    case Break(a) =>
      if InPhase(s, a, Building) {
        PhaseWorks(s, a, Building, Broken);
      }
    case Crash(a) => FinishWorks(s, a);
    case Background(statements) => BackgroundWorks(s, statements);
  }

  lemma StepWorks(s: System, e: Event, maxAttempts: int)
    requires Safe(s) && CountersOk(s) && InStep(s) && Exclusive(s, e)
    ensures Working(Next(s, e, maxAttempts).db, Next(s, e, maxAttempts).running)
  {
    if e.CommitMission? || e.CommitAdmission? || e.Mark? {
      CommitStepWorks(s, e, maxAttempts);
    } else if e.Refuse? || e.Recover? || e.Reconcile? || e.ExpireWait? {
      RowStepWorks(s, e, maxAttempts);
    } else {
      QuietStepWorks(s, e, maxAttempts);
    }
  }

  /** Whoever writes blindly holds the row, and a held row is not bound. */
  lemma HeldIsNotOverwritten(s: System, e: Event)
    requires Working(s.db, s.running)
    ensures !Overwrites(s, e)
  {
    forall o <- s.db.occurrences | Blind(s, e, o) ensures !Bound(s.db, o) {
      assert Follows(s.db, s.running[e.attempt]);
    }
  }

  /** With one worker at a time on each occurrence no step writes over a bound one. */
  lemma {:induction false} ExclusiveNeverOverwrites(s: System, events: seq<Event>, maxAttempts: int)
    requires Safe(s) && CountersOk(s) && InStep(s) && ExclusiveRun(s, events, maxAttempts)
    ensures NeverOverwrites(s, events, maxAttempts)
    decreases |events|
  {
    if events != [] {
      HeldIsNotOverwritten(s, events[0]);
      SettledStepIff(s, events[0], maxAttempts);
      StepIsSafe(s, events[0], maxAttempts);
      StepWorks(s, events[0], maxAttempts);
      ExclusiveNeverOverwrites(Next(s, events[0], maxAttempts), events[1..], maxAttempts);
    }
  }

  lemma ReconcileConverges(s: System, o: Id, maxAttempts: int)
    requires Safe(s) && SettledAt(s.db, o) && Bound(s.db, o)
    ensures var t := Next(s, Reconcile(o), maxAttempts).db; o in t.occurrences && t.occurrences[o].status.Dispatched?
  {
    if s.db.occurrences[o].status.Dispatching? {
      ReconcileExact(s, o, maxAttempts);
    }
  }

  /** After a run that never writes over a bound occurrence, one reconciliation makes it DISPATCHED. */
  lemma {:induction false} SettledRunsConverge(s: System, events: seq<Event>, maxAttempts: int, o: Id)
    requires Safe(s) && CountersOk(s) && AlwaysSettled(s, events, maxAttempts)
    requires BoundAt(RunEvents(s, events, maxAttempts).db, o)
    ensures var r := RunEvents(s, events, maxAttempts);
            && Settled(r.db.occurrences[o])
            && o in Next(r, Reconcile(o), maxAttempts).db.occurrences
            && Next(r, Reconcile(o), maxAttempts).db.occurrences[o].status.Dispatched?
    decreases |events|
  {
    if events == [] {
      ReconcileConverges(s, o, maxAttempts);
    } else {
      StepIsSafe(s, events[0], maxAttempts);
      SettledRunsConverge(Next(s, events[0], maxAttempts), events[1..], maxAttempts, o);
    }
  }

  /** With one worker at a time on each occurrence, a bound occurrence is always DISPATCHED or
      still DISPATCHING, and one reconciliation of an idle one makes it DISPATCHED. */
  lemma ExclusiveRunsSettleBindings(s: System, events: seq<Event>, maxAttempts: int, o: Id)
    requires Safe(s) && CountersOk(s) && InStep(s) && ExclusiveRun(s, events, maxAttempts)
    requires BoundAt(RunEvents(s, events, maxAttempts).db, o)
    ensures AlwaysSettled(s, events, maxAttempts)
    ensures var r := RunEvents(s, events, maxAttempts);
            && o in Next(r, Reconcile(o), maxAttempts).db.occurrences
            && Next(r, Reconcile(o), maxAttempts).db.occurrences[o].status.Dispatched?
  {
    ExclusiveNeverOverwrites(s, events, maxAttempts);
    AlwaysSettledIff(s, events, maxAttempts);
    SettledRunsConverge(s, events, maxAttempts, o);
  }
}
