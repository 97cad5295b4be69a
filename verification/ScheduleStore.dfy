/**
 The recurring-schedule tables of migration 025 and the transactions that change them.

 Every statement is checked the way a database checks it: only the row it writes is
 compared with the rows it could clash with, and a referenced row is looked up, not
 the whole database. The lemmas say that these row-sized checks amount to the
 constraints over whole tables, at every statement and at every commit.
 */
module ScheduleStore {
  import opened Wrappers

  type Id = nat

  const MINIMUM_INTERVAL_SECONDS := 60
  const MAX_CATCH_UP_CAP := 10

  datatype ScheduleStatus = Draft | Active | Paused | Completed | Cancelled | Archived
  datatype OccurrenceStatus = Pending | Waiting | Dispatching | Dispatched | Skipped | Failed | OccurrenceCancelled
  datatype TargetType = CampaignAdmission | StandaloneMission
  datatype CatchUpPolicy = SkipMissed | RunLatestOnly | RunAllBounded

  datatype Schedule = Schedule(
    status: ScheduleStatus, currentVersion: Option<Id>, startTime: int, endTime: Option<int>,
    lastRunAt: Option<int>, nextRunAt: Option<int>)
  datatype Version = Version(
    scheduleId: Id, versionNumber: int, cron: Option<string>, interval: Option<int>,
    policy: CatchUpPolicy, maxCatchUp: int, target: TargetType, targetId: Id)
  datatype Occurrence = Occurrence(
    scheduleId: Id, versionId: Id, at: int, status: OccurrenceStatus, key: string,
    target: TargetType, targetId: Option<Id>, attempts: int)
  datatype MissionBinding = MissionBinding(occurrenceId: Id, missionId: Id)
  datatype CampaignBinding = CampaignBinding(occurrenceId: Id, campaignId: Id, itemId: Id)
  /** The part of a mission the scheduler relies on: metadata.origin_occurrence_id. */
  datatype Mission = Mission(origin: Option<Id>)

  datatype Tables = Tables(
    schedules: map<Id, Schedule>,
    versions: map<Id, Version>,
    occurrences: map<Id, Occurrence>,
    missionBindings: map<Id, MissionBinding>,
    campaignBindings: map<Id, CampaignBinding>,
    missions: map<Id, Mission>,
    campaigns: set<Id>,
    items: set<Id>)

  const EMPTY := Tables(map[], map[], map[], map[], map[], map[], {}, {})

  // ---- Check constraints, one row at a time ----

  predicate ScheduleRowOk(s: Schedule) {
    && (s.endTime.Some? ==> s.endTime.value > s.startTime)
    && (s.status.Active? ==> s.currentVersion.Some? && s.nextRunAt.Some?)
    && (s.status.Draft? ==> s.nextRunAt.None?)
    && (s.status.Completed? || s.status.Cancelled? || s.status.Archived? ==> s.nextRunAt.None?)
  }

  predicate VersionRowOk(v: Version) {
    && v.versionNumber >= 1
    && (v.cron.Some? <==> v.interval.None?)
    && (v.interval.Some? ==> v.interval.value >= MINIMUM_INTERVAL_SECONDS)
    && 1 <= v.maxCatchUp <= MAX_CATCH_UP_CAP
  }

  predicate OccurrenceRowOk(o: Occurrence) {
    o.attempts >= 0
  }

  // ---- Constraints over whole tables ----

  ghost predicate SchedulesOk(schedules: map<Id, Schedule>) {
    forall s <- schedules :: ScheduleRowOk(schedules[s])
  }

  ghost predicate VersionsOk(versions: map<Id, Version>, schedules: set<Id>) {
    && (forall v <- versions :: VersionRowOk(versions[v]) && versions[v].scheduleId in schedules)
    && (forall v <- versions, w <- versions | v != w ::
          !SameVersionNumber(versions[v], versions[w]))
  }

  predicate SameVersionNumber(v: Version, w: Version) {
    v.scheduleId == w.scheduleId && v.versionNumber == w.versionNumber
  }

  /** The composite key (schedule_id, version_id) that occurrences and schedules refer to. */
  predicate OwnedVersion(versions: map<Id, Version>, schedule: Id, version: Id) {
    version in versions && versions[version].scheduleId == schedule
  }

  predicate SameTick(o: Occurrence, p: Occurrence) {
    (o.scheduleId == p.scheduleId && o.at == p.at) || o.key == p.key
  }

  ghost predicate OccurrencesOk(
    occurrences: map<Id, Occurrence>, schedules: set<Id>, versions: map<Id, Version>) {
    && (forall o <- occurrences ::
          && OccurrenceRowOk(occurrences[o])
          && occurrences[o].scheduleId in schedules
          && OwnedVersion(versions, occurrences[o].scheduleId, occurrences[o].versionId))
    && (forall o <- occurrences, p <- occurrences | o != p :: !SameTick(occurrences[o], occurrences[p]))
  }

  predicate SharesMissionKey(b: MissionBinding, c: MissionBinding) {
    b.occurrenceId == c.occurrenceId || b.missionId == c.missionId
  }

  ghost predicate MissionBindingsOk(
    bindings: map<Id, MissionBinding>, occurrences: set<Id>, missions: set<Id>) {
    && (forall b <- bindings :: bindings[b].occurrenceId in occurrences && bindings[b].missionId in missions)
    && (forall b <- bindings, c <- bindings | b != c :: !SharesMissionKey(bindings[b], bindings[c]))
  }

  predicate SharesItemKey(b: CampaignBinding, c: CampaignBinding) {
    b.occurrenceId == c.occurrenceId || b.itemId == c.itemId
  }

  predicate CampaignBindingRefersTo(b: CampaignBinding, occurrences: set<Id>, campaigns: set<Id>, items: set<Id>) {
    b.occurrenceId in occurrences && b.campaignId in campaigns && b.itemId in items
  }

  ghost predicate CampaignBindingsOk(
    bindings: map<Id, CampaignBinding>, occurrences: set<Id>, campaigns: set<Id>, items: set<Id>) {
    && (forall b <- bindings :: CampaignBindingRefersTo(bindings[b], occurrences, campaigns, items))
    && (forall b <- bindings, c <- bindings | b != c :: !SharesItemKey(bindings[b], bindings[c]))
  }

  /** Everything checked at the end of each statement. */
  ghost predicate Immediate(t: Tables) {
    && SchedulesOk(t.schedules)
    && VersionsOk(t.versions, t.schedules.Keys)
    && OccurrencesOk(t.occurrences, t.schedules.Keys, t.versions)
    && MissionBindingsOk(t.missionBindings, t.occurrences.Keys, t.missions.Keys)
    && CampaignBindingsOk(t.campaignBindings, t.occurrences.Keys, t.campaigns, t.items)
  }

  /** fk_recurring_schedules_current_version for one schedule; a NULL column passes. */
  predicate CurrentVersionOk(t: Tables, s: Id)
    requires s in t.schedules
  {
    t.schedules[s].currentVersion.Some? ==>
      OwnedVersion(t.versions, s, t.schedules[s].currentVersion.value)
  }

  /** The deferred foreign key, which only a commit checks. */
  ghost predicate Deferred(t: Tables) {
    forall s <- t.schedules :: CurrentVersionOk(t, s)
  }

  ghost predicate Integrity(t: Tables) {
    Immediate(t) && Deferred(t)
  }

  // ---- Statements ----

  datatype Statement =
    | InsertSchedule(id: Id, schedule: Schedule)
    | UpdateSchedule(id: Id, schedule: Schedule)
    | DeleteSchedule(id: Id)
    | InsertVersion(id: Id, version: Version)
    | UpdateVersion(id: Id, version: Version)
    | DeleteVersion(id: Id)
    | InsertOccurrence(id: Id, occurrence: Occurrence)
    | UpdateOccurrence(id: Id, occurrence: Occurrence)
    | DeleteOccurrence(id: Id)
    | InsertMission(id: Id, mission: Mission)
    | DeleteMission(id: Id)
    | InsertMissionBinding(id: Id, missionBinding: MissionBinding)
    | DeleteMissionBinding(id: Id)
    | InsertCampaign(id: Id)
    | DeleteCampaign(id: Id)
    | InsertItem(id: Id)
    | DeleteItem(id: Id)
    | InsertCampaignBinding(id: Id, campaignBinding: CampaignBinding)
    | DeleteCampaignBinding(id: Id)

  /** A primary key that an INSERT would repeat. */
  predicate RepeatsKey(t: Tables, s: Statement) {
    match s
    case InsertSchedule(id, _) => id in t.schedules
    case InsertVersion(id, _) => id in t.versions
    case InsertOccurrence(id, _) => id in t.occurrences
    case InsertMission(id, _) => id in t.missions
    case InsertMissionBinding(id, _) => id in t.missionBindings
    case InsertCampaign(id) => id in t.campaigns
    case InsertItem(id) => id in t.items
    case InsertCampaignBinding(id, _) => id in t.campaignBindings
    case _ => false
  }

  function VersionsOf(t: Tables, schedule: Id): (r: set<Id>) {
    set v <- t.versions | t.versions[v].scheduleId == schedule
  }

  /** What the statement writes, cascades included, before any constraint is looked at.
      UPDATE and DELETE of a row that is not there change nothing. */
  function Effect(t: Tables, s: Statement): (r: Tables) {
    match s
    case InsertSchedule(id, row) => t.(schedules := t.schedules[id := row])
    case UpdateSchedule(id, row) => if id in t.schedules then t.(schedules := t.schedules[id := row]) else t
    case DeleteSchedule(id) =>
      if id in t.schedules
      then t.(schedules := t.schedules - {id}, versions := t.versions - VersionsOf(t, id))
      else t
    case InsertVersion(id, row) => t.(versions := t.versions[id := row])
    case UpdateVersion(id, row) => if id in t.versions then t.(versions := t.versions[id := row]) else t
    case DeleteVersion(id) => t.(versions := t.versions - {id})
    case InsertOccurrence(id, row) => t.(occurrences := t.occurrences[id := row])
    case UpdateOccurrence(id, row) =>
      if id in t.occurrences then t.(occurrences := t.occurrences[id := row]) else t
    case DeleteOccurrence(id) => t.(occurrences := t.occurrences - {id})
    case InsertMission(id, row) => t.(missions := t.missions[id := row])
    case DeleteMission(id) => t.(missions := t.missions - {id})
    case InsertMissionBinding(id, row) => t.(missionBindings := t.missionBindings[id := row])
    case DeleteMissionBinding(id) => t.(missionBindings := t.missionBindings - {id})
    case InsertCampaign(id) => t.(campaigns := t.campaigns + {id})
    case DeleteCampaign(id) => t.(campaigns := t.campaigns - {id})
    case InsertItem(id) => t.(items := t.items + {id})
    case DeleteItem(id) => t.(items := t.items - {id})
    case InsertCampaignBinding(id, row) => t.(campaignBindings := t.campaignBindings[id := row])
    case DeleteCampaignBinding(id) => t.(campaignBindings := t.campaignBindings - {id})
  }

  // ---- Row-sized checks ----

  predicate VersionFits(t: Tables, id: Id, row: Version) {
    && VersionRowOk(row)
    && row.scheduleId in t.schedules
    && forall v <- t.versions | v != id :: !SameVersionNumber(t.versions[v], row)
  }

  predicate OccurrenceFits(t: Tables, id: Id, row: Occurrence) {
    && OccurrenceRowOk(row)
    && row.scheduleId in t.schedules
    && OwnedVersion(t.versions, row.scheduleId, row.versionId)
    && forall o <- t.occurrences | o != id :: !SameTick(t.occurrences[o], row)
  }

  predicate UsedByOccurrence(t: Tables, version: Id) {
    exists o <- t.occurrences :: t.occurrences[o].versionId == version
  }

  predicate BoundOccurrence(t: Tables, occurrence: Id) {
    || (exists b <- t.missionBindings :: t.missionBindings[b].occurrenceId == occurrence)
    || (exists b <- t.campaignBindings :: t.campaignBindings[b].occurrenceId == occurrence)
  }

  /** The constraint checks that one statement triggers. */
  predicate Admits(t: Tables, s: Statement) {
    match s
    case InsertSchedule(_, row) => ScheduleRowOk(row)
    case UpdateSchedule(id, row) => id in t.schedules ==> ScheduleRowOk(row)
    case DeleteSchedule(id) => forall o <- t.occurrences :: t.occurrences[o].scheduleId != id
    case InsertVersion(id, row) => VersionFits(t, id, row)
    case UpdateVersion(id, row) =>
      id in t.versions ==>
        && VersionFits(t, id, row)
        && (row.scheduleId != t.versions[id].scheduleId ==> !UsedByOccurrence(t, id))
    case DeleteVersion(id) => !UsedByOccurrence(t, id)
    case InsertOccurrence(id, row) => OccurrenceFits(t, id, row)
    case UpdateOccurrence(id, row) => id in t.occurrences ==> OccurrenceFits(t, id, row)
    case DeleteOccurrence(id) => !BoundOccurrence(t, id)
    case InsertMission(_, _) => true
    case DeleteMission(id) => forall b <- t.missionBindings :: t.missionBindings[b].missionId != id
    case InsertMissionBinding(_, row) =>
      && row.occurrenceId in t.occurrences && row.missionId in t.missions
      && forall b <- t.missionBindings :: !SharesMissionKey(t.missionBindings[b], row)
    case DeleteMissionBinding(_) => true
    case InsertCampaign(_) => true
    case DeleteCampaign(id) => forall b <- t.campaignBindings :: t.campaignBindings[b].campaignId != id
    case InsertItem(_) => true
    case DeleteItem(id) => forall b <- t.campaignBindings :: t.campaignBindings[b].itemId != id
    case InsertCampaignBinding(_, row) =>
      && CampaignBindingRefersTo(row, t.occurrences.Keys, t.campaigns, t.items)
      && forall b <- t.campaignBindings :: !SharesItemKey(t.campaignBindings[b], row)
    case DeleteCampaignBinding(_) => true
  }

  /** One statement: None is a constraint error, which aborts the transaction. */
  function Execute(t: Tables, s: Statement): (r: Option<Tables>) {
    if RepeatsKey(t, s) || !Admits(t, s) then None else Some(Effect(t, s))
  }

  /** Schedules whose deferred reference the statement may have changed or broken. */
  function Touched(t: Tables, s: Statement): (r: set<Id>) {
    match s
    case InsertSchedule(id, _) => {id}
    case UpdateSchedule(id, _) => {id}
    case DeleteSchedule(id) => Pointing(t, VersionsOf(t, id))
    case UpdateVersion(id, _) => Pointing(t, {id})
    case DeleteVersion(id) => Pointing(t, {id})
    case _ => {}
  }

  function Pointing(t: Tables, versions: set<Id>): (r: set<Id>) {
    set s <- t.schedules |
      t.schedules[s].currentVersion.Some? && t.schedules[s].currentVersion.value in versions
  }

  /** A transaction in progress: its own view of the tables and the references to recheck. */
  datatype Progress = Progress(tables: Tables, touched: set<Id>)

  function Run(p: Progress, statements: seq<Statement>): (r: Option<Progress>)
    decreases |statements|
  {
    if statements == [] then Some(p)
    else
      match Execute(p.tables, statements[0])
      case None => None
      case Some(t) => Run(Progress(t, p.touched + Touched(p.tables, statements[0])), statements[1..])
  }

  predicate CommitCheck(p: Progress) {
    forall s <- p.touched | s in p.tables.schedules :: CurrentVersionOk(p.tables, s)
  }

  /** A whole transaction: None is a rollback. */
  function Transaction(t: Tables, statements: seq<Statement>): (r: Option<Tables>) {
    match Run(Progress(t, {}), statements)
    case None => None
    case Some(p) => if CommitCheck(p) then Some(p.tables) else None
  }

  /** Transactions one after another, each committed or rolled back. */
  function History(t: Tables, transactions: seq<seq<Statement>>): (r: Tables)
    decreases |transactions|
  {
    if transactions == [] then t
    else
      match Transaction(t, transactions[0])
      case None => History(t, transactions[1..])
      case Some(u) => History(u, transactions[1..])
  }

  // ---- The row-sized checks are exact ----

  lemma PutSchedule(schedules: map<Id, Schedule>, id: Id, row: Schedule)
    requires SchedulesOk(schedules)
    ensures SchedulesOk(schedules[id := row]) <==> ScheduleRowOk(row)
  {
    assert id in schedules[id := row];
  }

  lemma PutVersion(versions: map<Id, Version>, schedules: set<Id>, id: Id, row: Version)
    requires VersionsOk(versions, schedules)
    ensures VersionsOk(versions[id := row], schedules) <==>
            && VersionRowOk(row) && row.scheduleId in schedules
            && forall v <- versions | v != id :: !SameVersionNumber(versions[v], row)
  {
    var after := versions[id := row];
    assert id in after && after[id] == row;
    if VersionsOk(after, schedules) {
      forall v <- versions | v != id ensures !SameVersionNumber(versions[v], row) {
        assert v in after && !SameVersionNumber(after[v], after[id]);
      }
    }
  }

  lemma PutOccurrence(
    occurrences: map<Id, Occurrence>, schedules: set<Id>, versions: map<Id, Version>, id: Id, row: Occurrence)
    requires OccurrencesOk(occurrences, schedules, versions)
    ensures OccurrencesOk(occurrences[id := row], schedules, versions) <==>
            && OccurrenceRowOk(row) && row.scheduleId in schedules
            && OwnedVersion(versions, row.scheduleId, row.versionId)
            && forall o <- occurrences | o != id :: !SameTick(occurrences[o], row)
  {
    var after := occurrences[id := row];
    assert id in after && after[id] == row;
    if OccurrencesOk(after, schedules, versions) {
      forall o <- occurrences | o != id ensures !SameTick(occurrences[o], row) {
        assert o in after && !SameTick(after[o], after[id]);
      }
    }
  }

  /** Rewriting a version disturbs the occurrences only if it leaves its schedule while in use. */
  lemma PutUsedVersion(
    occurrences: map<Id, Occurrence>, schedules: set<Id>, versions: map<Id, Version>, id: Id, row: Version)
    requires OccurrencesOk(occurrences, schedules, versions)
    ensures OccurrencesOk(occurrences, schedules, versions[id := row]) <==>
            (id in versions && row.scheduleId != versions[id].scheduleId ==>
               forall o <- occurrences :: occurrences[o].versionId != id)
  {
    var after := versions[id := row];
    if o :| o in occurrences && occurrences[o].versionId == id {
      assert OwnedVersion(versions, occurrences[o].scheduleId, id);
      assert OwnedVersion(after, occurrences[o].scheduleId, id) <==> row.scheduleId == versions[id].scheduleId;
    }
  }

  lemma DropVersions(
    occurrences: map<Id, Occurrence>, schedules: set<Id>, versions: map<Id, Version>, gone: set<Id>)
    requires OccurrencesOk(occurrences, schedules, versions)
    ensures OccurrencesOk(occurrences, schedules, versions - gone) <==>
            forall o <- occurrences :: occurrences[o].versionId !in gone
  {
    if o :| o in occurrences && occurrences[o].versionId in gone {
      assert !OwnedVersion(versions - gone, occurrences[o].scheduleId, occurrences[o].versionId);
    }
  }

  lemma PutMissionBinding(
    bindings: map<Id, MissionBinding>, occurrences: set<Id>, missions: set<Id>, id: Id, row: MissionBinding)
    requires MissionBindingsOk(bindings, occurrences, missions) && id !in bindings
    ensures MissionBindingsOk(bindings[id := row], occurrences, missions) <==>
            && row.occurrenceId in occurrences && row.missionId in missions
            && forall b <- bindings :: !SharesMissionKey(bindings[b], row)
  {
    var after := bindings[id := row];
    assert id in after && after[id] == row;
    if MissionBindingsOk(after, occurrences, missions) {
      forall b <- bindings ensures !SharesMissionKey(bindings[b], row) {
        assert b in after && !SharesMissionKey(after[b], after[id]);
      }
    }
  }

  lemma PutCampaignBinding(
    bindings: map<Id, CampaignBinding>, occurrences: set<Id>, campaigns: set<Id>, items: set<Id>,
    id: Id, row: CampaignBinding)
    requires CampaignBindingsOk(bindings, occurrences, campaigns, items) && id !in bindings
    ensures CampaignBindingsOk(bindings[id := row], occurrences, campaigns, items) <==>
            && CampaignBindingRefersTo(row, occurrences, campaigns, items)
            && forall b <- bindings :: !SharesItemKey(bindings[b], row)
  {
    var after := bindings[id := row];
    assert id in after && after[id] == row;
    if CampaignBindingsOk(after, occurrences, campaigns, items) {
      forall b <- bindings ensures !SharesItemKey(bindings[b], row) {
        assert b in after && !SharesItemKey(after[b], after[id]);
      }
    }
  }

  lemma InsertScheduleExact(t: Tables, id: Id, row: Schedule)
    requires Immediate(t)
    ensures ScheduleRowOk(row) <==> Immediate(t.(schedules := t.schedules[id := row]))
  {
    PutSchedule(t.schedules, id, row);
  }

  lemma DropScheduleExact(t: Tables, id: Id)
    requires Immediate(t) && id in t.schedules
    ensures Admits(t, DeleteSchedule(id)) <==> Immediate(Effect(t, DeleteSchedule(id)))
  {
    var u := Effect(t, DeleteSchedule(id));
    DropVersions(t.occurrences, t.schedules.Keys, t.versions, VersionsOf(t, id));
    assert SchedulesOk(u.schedules) && VersionsOk(u.versions, u.schedules.Keys);
    if Admits(t, DeleteSchedule(id)) {
      assert OccurrencesOk(u.occurrences, t.schedules.Keys, u.versions) by {
        forall o <- t.occurrences ensures t.occurrences[o].versionId !in VersionsOf(t, id) {
          assert OwnedVersion(t.versions, t.occurrences[o].scheduleId, t.occurrences[o].versionId);
        }
      }
      assert OccurrencesOk(u.occurrences, u.schedules.Keys, u.versions);
    } else {
      var o :| o in t.occurrences && t.occurrences[o].scheduleId == id;
      assert o in u.occurrences && u.occurrences[o].scheduleId !in u.schedules;
    }
  }

  lemma PutVersionExact(t: Tables, id: Id, row: Version)
    requires Immediate(t)
    ensures && VersionFits(t, id, row)
            && (id in t.versions && row.scheduleId != t.versions[id].scheduleId ==> !UsedByOccurrence(t, id))
            <==> Immediate(t.(versions := t.versions[id := row]))
  {
    PutVersion(t.versions, t.schedules.Keys, id, row);
    PutUsedVersion(t.occurrences, t.schedules.Keys, t.versions, id, row);
  }

  lemma DropVersionExact(t: Tables, id: Id)
    requires Immediate(t)
    ensures !UsedByOccurrence(t, id) <==> Immediate(t.(versions := t.versions - {id}))
  {
    DropVersions(t.occurrences, t.schedules.Keys, t.versions, {id});
    assert VersionsOk(t.versions - {id}, t.schedules.Keys);
  }

  lemma PutOccurrenceExact(t: Tables, id: Id, row: Occurrence)
    requires Immediate(t)
    ensures OccurrenceFits(t, id, row) <==> Immediate(t.(occurrences := t.occurrences[id := row]))
  {
    PutOccurrence(t.occurrences, t.schedules.Keys, t.versions, id, row);
  }

  lemma DropMissionEnds(
    bindings: map<Id, MissionBinding>, occurrences: set<Id>, missions: set<Id>, goneOccurrences: set<Id>, goneMissions: set<Id>)
    requires MissionBindingsOk(bindings, occurrences, missions)
    ensures MissionBindingsOk(bindings, occurrences - goneOccurrences, missions - goneMissions) <==>
            forall b <- bindings :: bindings[b].occurrenceId !in goneOccurrences && bindings[b].missionId !in goneMissions
  {
  }

  lemma DropBoundOccurrence(
    bindings: map<Id, CampaignBinding>, occurrences: set<Id>, campaigns: set<Id>, items: set<Id>, id: Id)
    requires CampaignBindingsOk(bindings, occurrences, campaigns, items)
    ensures CampaignBindingsOk(bindings, occurrences - {id}, campaigns, items) <==>
            forall b <- bindings :: bindings[b].occurrenceId != id
  {
    if b :| b in bindings && bindings[b].occurrenceId == id {
      assert !CampaignBindingRefersTo(bindings[b], occurrences - {id}, campaigns, items);
    }
  }

  lemma DropOccurrenceExact(t: Tables, id: Id)
    requires Immediate(t)
    ensures !BoundOccurrence(t, id) <==> Immediate(t.(occurrences := t.occurrences - {id}))
  {
    var rest := t.occurrences - {id};
    assert rest.Keys == t.occurrences.Keys - {id} && t.missions.Keys - {} == t.missions.Keys;
    assert OccurrencesOk(rest, t.schedules.Keys, t.versions);
    DropMissionEnds(t.missionBindings, t.occurrences.Keys, t.missions.Keys, {id}, {});
    DropBoundOccurrence(t.campaignBindings, t.occurrences.Keys, t.campaigns, t.items, id);
  }

  lemma DropMissionExact(t: Tables, id: Id)
    requires Immediate(t)
    ensures Admits(t, DeleteMission(id)) <==> Immediate(Effect(t, DeleteMission(id)))
  {
    assert (t.missions - {id}).Keys == t.missions.Keys - {id} && t.occurrences.Keys - {} == t.occurrences.Keys;
    DropMissionEnds(t.missionBindings, t.occurrences.Keys, t.missions.Keys, {}, {id});
  }

  lemma MissionBindingExact(t: Tables, id: Id, row: MissionBinding)
    requires Immediate(t) && id !in t.missionBindings
    ensures Admits(t, InsertMissionBinding(id, row)) <==> Immediate(Effect(t, InsertMissionBinding(id, row)))
  {
    PutMissionBinding(t.missionBindings, t.occurrences.Keys, t.missions.Keys, id, row);
  }

  lemma InsertMissionFits(t: Tables, id: Id, row: Mission)
    requires Immediate(t)
    ensures Immediate(Effect(t, InsertMission(id, row)))
  {
    assert MissionBindingsOk(t.missionBindings, t.occurrences.Keys, t.missions[id := row].Keys);
  }

  lemma DropMissionBindingFits(t: Tables, id: Id)
    requires Immediate(t)
    ensures Immediate(Effect(t, DeleteMissionBinding(id)))
  {
    assert MissionBindingsOk(t.missionBindings - {id}, t.occurrences.Keys, t.missions.Keys);
  }

  lemma MissionStatementsExact(t: Tables, s: Statement)
    requires Immediate(t) && !RepeatsKey(t, s)
    requires s.InsertMission? || s.DeleteMission? || s.InsertMissionBinding? || s.DeleteMissionBinding?
    ensures Admits(t, s) <==> Immediate(Effect(t, s))
  {
    match s
    case InsertMission(id, row) => InsertMissionFits(t, id, row);
    case DeleteMission(id) => DropMissionExact(t, id);
    case InsertMissionBinding(id, row) => MissionBindingExact(t, id, row);
    case DeleteMissionBinding(id) => DropMissionBindingFits(t, id);
  }

  lemma DropCampaignExact(t: Tables, id: Id)
    requires Immediate(t)
    ensures Admits(t, DeleteCampaign(id)) <==> Immediate(Effect(t, DeleteCampaign(id)))
  {
    var rest := t.campaigns - {id};
    assert (forall b <- t.campaignBindings :: t.campaignBindings[b].campaignId != id)
           <==> CampaignBindingsOk(t.campaignBindings, t.occurrences.Keys, rest, t.items) by {
      if b :| b in t.campaignBindings && t.campaignBindings[b].campaignId == id {
        assert !CampaignBindingRefersTo(t.campaignBindings[b], t.occurrences.Keys, rest, t.items);
      }
    }
  }

  lemma DropItemExact(t: Tables, id: Id)
    requires Immediate(t)
    ensures Admits(t, DeleteItem(id)) <==> Immediate(Effect(t, DeleteItem(id)))
  {
    var rest := t.items - {id};
    assert (forall b <- t.campaignBindings :: t.campaignBindings[b].itemId != id)
           <==> CampaignBindingsOk(t.campaignBindings, t.occurrences.Keys, t.campaigns, rest) by {
      if b :| b in t.campaignBindings && t.campaignBindings[b].itemId == id {
        assert !CampaignBindingRefersTo(t.campaignBindings[b], t.occurrences.Keys, t.campaigns, rest);
      }
    }
  }

  lemma CampaignBindingExact(t: Tables, id: Id, row: CampaignBinding)
    requires Immediate(t) && id !in t.campaignBindings
    ensures Admits(t, InsertCampaignBinding(id, row)) <==> Immediate(Effect(t, InsertCampaignBinding(id, row)))
  {
    PutCampaignBinding(t.campaignBindings, t.occurrences.Keys, t.campaigns, t.items, id, row);
  }

  lemma InsertCampaignFits(t: Tables, id: Id)
    requires Immediate(t)
    ensures Immediate(Effect(t, InsertCampaign(id)))
  {
    assert CampaignBindingsOk(t.campaignBindings, t.occurrences.Keys, t.campaigns + {id}, t.items);
  }

  lemma InsertItemFits(t: Tables, id: Id)
    requires Immediate(t)
    ensures Immediate(Effect(t, InsertItem(id)))
  {
    assert CampaignBindingsOk(t.campaignBindings, t.occurrences.Keys, t.campaigns, t.items + {id});
  }

  lemma DropCampaignBindingFits(t: Tables, id: Id)
    requires Immediate(t)
    ensures Immediate(Effect(t, DeleteCampaignBinding(id)))
  {
    assert CampaignBindingsOk(t.campaignBindings - {id}, t.occurrences.Keys, t.campaigns, t.items);
  }

  lemma ScheduleStatementsExact(t: Tables, s: Statement)
    requires Immediate(t) && !RepeatsKey(t, s)
    requires s.InsertSchedule? || s.UpdateSchedule? || s.DeleteSchedule?
    ensures Execute(t, s).Some? <==> Immediate(Effect(t, s))
  {
    match s
    case InsertSchedule(id, row) => InsertScheduleExact(t, id, row);
    case UpdateSchedule(id, row) => InsertScheduleExact(t, id, row);
    case DeleteSchedule(id) =>
      if id in t.schedules {
        DropScheduleExact(t, id);
      }
  }

  lemma VersionStatementsExact(t: Tables, s: Statement)
    requires Immediate(t) && !RepeatsKey(t, s)
    requires s.InsertVersion? || s.UpdateVersion? || s.DeleteVersion?
    ensures Execute(t, s).Some? <==> Immediate(Effect(t, s))
  {
    match s
    case InsertVersion(id, row) => PutVersionExact(t, id, row);
    case UpdateVersion(id, row) => PutVersionExact(t, id, row);
    case DeleteVersion(id) => DropVersionExact(t, id);
  }

  lemma OccurrenceStatementsExact(t: Tables, s: Statement)
    requires Immediate(t) && !RepeatsKey(t, s)
    requires s.InsertOccurrence? || s.UpdateOccurrence? || s.DeleteOccurrence?
    ensures Execute(t, s).Some? <==> Immediate(Effect(t, s))
  {
    match s
    case InsertOccurrence(id, row) => PutOccurrenceExact(t, id, row);
    case UpdateOccurrence(id, row) => PutOccurrenceExact(t, id, row);
    case DeleteOccurrence(id) => DropOccurrenceExact(t, id);
  }

  lemma CampaignStatementsExact(t: Tables, s: Statement)
    requires Immediate(t)
    requires s.InsertCampaign? || s.DeleteCampaign? || s.InsertItem? || s.DeleteItem?
    ensures Admits(t, s) <==> Immediate(Effect(t, s))
  {
    match s
    case InsertCampaign(id) => InsertCampaignFits(t, id);
    case DeleteCampaign(id) => DropCampaignExact(t, id);
    case InsertItem(id) => InsertItemFits(t, id);
    case DeleteItem(id) => DropItemExact(t, id);
  }

  lemma CampaignBindingStatementsExact(t: Tables, s: Statement)
    requires Immediate(t) && !RepeatsKey(t, s)
    requires s.InsertCampaignBinding? || s.DeleteCampaignBinding?
    ensures Admits(t, s) <==> Immediate(Effect(t, s))
  {
    match s
    case InsertCampaignBinding(id, row) => CampaignBindingExact(t, id, row);
    case DeleteCampaignBinding(id) => DropCampaignBindingFits(t, id);
  }

  /** A statement is refused exactly when it repeats a key or would leave some table in breach. */
  lemma ExecuteExact(t: Tables, s: Statement)
    requires Immediate(t)
    ensures Execute(t, s).Some? <==> !RepeatsKey(t, s) && Immediate(Effect(t, s))
    ensures Execute(t, s).Some? ==> Execute(t, s).value == Effect(t, s)
  {
    if !RepeatsKey(t, s) {
      match s
      case InsertSchedule(_, _) => ScheduleStatementsExact(t, s);
      case UpdateSchedule(_, _) => ScheduleStatementsExact(t, s);
      case DeleteSchedule(_) => ScheduleStatementsExact(t, s);
      case InsertVersion(_, _) => VersionStatementsExact(t, s);
      case UpdateVersion(_, _) => VersionStatementsExact(t, s);
      case DeleteVersion(_) => VersionStatementsExact(t, s);
      case InsertOccurrence(_, _) => OccurrenceStatementsExact(t, s);
      case UpdateOccurrence(_, _) => OccurrenceStatementsExact(t, s);
      case DeleteOccurrence(_) => OccurrenceStatementsExact(t, s);
      case InsertMission(_, _) => MissionStatementsExact(t, s);
      case DeleteMission(_) => MissionStatementsExact(t, s);
      case InsertMissionBinding(_, _) => MissionStatementsExact(t, s);
      case DeleteMissionBinding(_) => MissionStatementsExact(t, s);
      case InsertCampaignBinding(_, _) => CampaignBindingStatementsExact(t, s);
      case DeleteCampaignBinding(_) => CampaignBindingStatementsExact(t, s);
      case _ => CampaignStatementsExact(t, s);
    }
  }

  // ---- What a statement leaves behind ----

  /** The row under id is v, or gone; every other row is as it was. */
  ghost predicate OnlyRow<V(!new)>(before: map<Id, V>, after: map<Id, V>, id: Id, v: Option<V>) {
    && (id in after <==> v.Some?)
    && (v.Some? ==> after[id] == v.value)
    && (forall x <- before | x != id :: x in after && after[x] == before[x])
    && (forall x <- after | x != id :: x in before)
  }

  function Updated<V>(before: map<Id, V>, id: Id, v: V): Option<V> {
    if id in before then Some(v) else None
  }

  /** One statement sets or removes its own row and leaves every other row and table alone; only a
      deleted schedule takes its versions with it, all of them and no others. */
  ghost predicate WritesOnly(t: Tables, u: Tables, s: Statement) {
    match s
    case InsertSchedule(id, row) => u == t.(schedules := u.schedules) && OnlyRow(t.schedules, u.schedules, id, Some(row))
    case UpdateSchedule(id, row) =>
      u == t.(schedules := u.schedules) && OnlyRow(t.schedules, u.schedules, id, Updated(t.schedules, id, row))
    case DeleteSchedule(id) =>
      && u == t.(schedules := u.schedules, versions := u.versions) && OnlyRow(t.schedules, u.schedules, id, None)
      && (id in t.schedules ==>
            forall v :: v in u.versions <==> v in t.versions && t.versions[v].scheduleId != id)
      && (id !in t.schedules ==> u.versions == t.versions)
      && (forall v <- u.versions :: v in t.versions && u.versions[v] == t.versions[v])
    case InsertVersion(id, row) => u == t.(versions := u.versions) && OnlyRow(t.versions, u.versions, id, Some(row))
    case UpdateVersion(id, row) =>
      u == t.(versions := u.versions) && OnlyRow(t.versions, u.versions, id, Updated(t.versions, id, row))
    case DeleteVersion(id) => u == t.(versions := u.versions) && OnlyRow(t.versions, u.versions, id, None)
    case InsertOccurrence(id, row) =>
      u == t.(occurrences := u.occurrences) && OnlyRow(t.occurrences, u.occurrences, id, Some(row))
    case UpdateOccurrence(id, row) =>
      u == t.(occurrences := u.occurrences) && OnlyRow(t.occurrences, u.occurrences, id, Updated(t.occurrences, id, row))
    case DeleteOccurrence(id) => u == t.(occurrences := u.occurrences) && OnlyRow(t.occurrences, u.occurrences, id, None)
    case InsertMission(id, row) => u == t.(missions := u.missions) && OnlyRow(t.missions, u.missions, id, Some(row))
    case DeleteMission(id) => u == t.(missions := u.missions) && OnlyRow(t.missions, u.missions, id, None)
    case InsertMissionBinding(id, row) =>
      u == t.(missionBindings := u.missionBindings) && OnlyRow(t.missionBindings, u.missionBindings, id, Some(row))
    case DeleteMissionBinding(id) =>
      u == t.(missionBindings := u.missionBindings) && OnlyRow(t.missionBindings, u.missionBindings, id, None)
    case InsertCampaign(id) =>
      u == t.(campaigns := u.campaigns) && forall x :: x in u.campaigns <==> x in t.campaigns || x == id
    case DeleteCampaign(id) =>
      u == t.(campaigns := u.campaigns) && forall x :: x in u.campaigns <==> x in t.campaigns && x != id
    case InsertItem(id) => u == t.(items := u.items) && forall x :: x in u.items <==> x in t.items || x == id
    case DeleteItem(id) => u == t.(items := u.items) && forall x :: x in u.items <==> x in t.items && x != id
    case InsertCampaignBinding(id, row) =>
      u == t.(campaignBindings := u.campaignBindings) && OnlyRow(t.campaignBindings, u.campaignBindings, id, Some(row))
    case DeleteCampaignBinding(id) =>
      u == t.(campaignBindings := u.campaignBindings) && OnlyRow(t.campaignBindings, u.campaignBindings, id, None)
  }

  /** An accepted statement writes exactly that, and an insert never meets an existing key. */
  lemma ExecuteWrites(t: Tables, s: Statement)
    requires Execute(t, s).Some?
    ensures WritesOnly(t, Execute(t, s).value, s)
  {
  }

  lemma InsertNeedsNewKey(t: Tables, s: Statement)
    requires Execute(t, s).Some?
    ensures match s
            case InsertSchedule(id, _) => id !in t.schedules
            case InsertVersion(id, _) => id !in t.versions
            case InsertOccurrence(id, _) => id !in t.occurrences
            case InsertMission(id, _) => id !in t.missions
            case InsertMissionBinding(id, _) => id !in t.missionBindings
            case InsertCampaign(id) => id !in t.campaigns
            case InsertItem(id) => id !in t.items
            case InsertCampaignBinding(id, _) => id !in t.campaignBindings
            case _ => true
  {
  }

  // ---- Rechecking the touched references is rechecking all of them ----

  /** Every schedule outside touched still has a good reference. */
  ghost predicate OnlyTouchedMayDangle(p: Progress) {
    forall s <- p.tables.schedules | s !in p.touched :: CurrentVersionOk(p.tables, s)
  }

  lemma UntouchedReferencesSurvive(t: Tables, s: Statement, schedule: Id)
    requires Execute(t, s).Some?
    requires schedule in Effect(t, s).schedules && schedule !in Touched(t, s)
    ensures schedule in t.schedules
    ensures CurrentVersionOk(t, schedule) ==> CurrentVersionOk(Effect(t, s), schedule)
  {
  }

  lemma {:induction false} RunInvariant(p: Progress, statements: seq<Statement>)
    requires Immediate(p.tables) && OnlyTouchedMayDangle(p)
    ensures var r := Run(p, statements);
            r.Some? ==> Immediate(r.value.tables) && OnlyTouchedMayDangle(r.value)
    decreases |statements|
  {
    if statements != [] {
      var s := statements[0];
      ExecuteExact(p.tables, s);
      if Execute(p.tables, s).Some? {
        var q := Progress(Effect(p.tables, s), p.touched + Touched(p.tables, s));
        forall x <- q.tables.schedules | x !in q.touched ensures CurrentVersionOk(q.tables, x) {
          UntouchedReferencesSurvive(p.tables, s, x);
        }
        RunInvariant(q, statements[1..]);
      }
    }
  }

  /** Commit looks only at touched schedules, and so decides the deferred key for all of them. */
  lemma CommitCheckExact(t: Tables, statements: seq<Statement>)
    requires Integrity(t) && Run(Progress(t, {}), statements).Some?
    ensures var p := Run(Progress(t, {}), statements).value;
            CommitCheck(p) <==> Deferred(p.tables)
  {
    RunInvariant(Progress(t, {}), statements);
  }

  lemma TransactionKeepsIntegrity(t: Tables, statements: seq<Statement>)
    requires Integrity(t)
    ensures Transaction(t, statements).Some? ==> Integrity(Transaction(t, statements).value)
  {
    RunInvariant(Progress(t, {}), statements);
    if Run(Progress(t, {}), statements).Some? {
      CommitCheckExact(t, statements);
    }
  }

  /** Every committed state of every sequence of transactions keeps all constraints. */
  lemma {:induction false} HistoryKeepsIntegrity(t: Tables, transactions: seq<seq<Statement>>)
    requires Integrity(t)
    ensures Integrity(History(t, transactions))
    decreases |transactions|
  {
    if transactions != [] {
      TransactionKeepsIntegrity(t, transactions[0]);
      match Transaction(t, transactions[0])
      case None => HistoryKeepsIntegrity(t, transactions[1..]);
      case Some(u) => HistoryKeepsIntegrity(u, transactions[1..]);
    }
  }

  /** A history goes on with one more transaction, which takes effect whole or not at all. */
  lemma {:induction false} HistoryGoesOn(t: Tables, transactions: seq<seq<Statement>>, n: nat)
    requires |transactions| == n + 1
    ensures var before := History(t, transactions[..n]);
            History(t, transactions) ==
            match Transaction(before, transactions[n])
            case None => before
            case Some(u) => u
    decreases n
  {
    if n > 0 {
      var first := match Transaction(t, transactions[0]) case None => t case Some(u) => u;
      assert transactions[1..][..n - 1] == transactions[..n][1..];
      HistoryGoesOn(first, transactions[1..], n - 1);
    } else {
      assert transactions[1..] == [];
    }
  }

  // ---- Integrity, constraint by constraint ----

  ghost predicate SchedulesChecked(t: Tables) {
    forall s <- t.schedules :: var row := t.schedules[s];
      && (row.endTime == None || row.endTime.value > row.startTime)
      && (row.status == Active ==> row.currentVersion != None && row.nextRunAt != None)
      && (row.status == Draft || row.status == Completed || row.status == Cancelled || row.status == Archived ==>
            row.nextRunAt == None)
      && (row.currentVersion == None ||
            (row.currentVersion.value in t.versions && t.versions[row.currentVersion.value].scheduleId == s))
  }

  ghost predicate VersionsChecked(t: Tables) {
    && (forall v <- t.versions :: var row := t.versions[v];
          && row.scheduleId in t.schedules
          && row.versionNumber >= 1 && 1 <= row.maxCatchUp <= 10
          && ((row.cron != None && row.interval == None) || (row.cron == None && row.interval != None))
          && (row.interval == None || row.interval.value >= 60))
    && (forall v <- t.versions, w <- t.versions |
          t.versions[v].scheduleId == t.versions[w].scheduleId
          && t.versions[v].versionNumber == t.versions[w].versionNumber :: v == w)
  }

  ghost predicate OccurrencesChecked(t: Tables) {
    && (forall o <- t.occurrences :: var row := t.occurrences[o];
          && row.attempts >= 0 && row.scheduleId in t.schedules
          && row.versionId in t.versions && t.versions[row.versionId].scheduleId == row.scheduleId)
    && (forall o <- t.occurrences, p <- t.occurrences |
          t.occurrences[o].scheduleId == t.occurrences[p].scheduleId && t.occurrences[o].at == t.occurrences[p].at :: o == p)
    && (forall o <- t.occurrences, p <- t.occurrences | t.occurrences[o].key == t.occurrences[p].key :: o == p)
  }

  ghost predicate BindingsChecked(t: Tables) {
    && (forall b <- t.missionBindings :: var row := t.missionBindings[b];
          row.occurrenceId in t.occurrences && row.missionId in t.missions)
    && (forall b <- t.missionBindings, c <- t.missionBindings |
          || t.missionBindings[b].occurrenceId == t.missionBindings[c].occurrenceId
          || t.missionBindings[b].missionId == t.missionBindings[c].missionId :: b == c)
    && (forall b <- t.campaignBindings :: var row := t.campaignBindings[b];
          row.occurrenceId in t.occurrences && row.campaignId in t.campaigns && row.itemId in t.items)
    && (forall b <- t.campaignBindings, c <- t.campaignBindings |
          || t.campaignBindings[b].occurrenceId == t.campaignBindings[c].occurrenceId
          || t.campaignBindings[b].itemId == t.campaignBindings[c].itemId :: b == c)
  }

  lemma SchedulesCheckedIff(t: Tables)
    ensures SchedulesChecked(t) <==> SchedulesOk(t.schedules) && Deferred(t)
  {
    if SchedulesOk(t.schedules) && Deferred(t) {
      forall s <- t.schedules ensures ScheduleRowOk(t.schedules[s]) && CurrentVersionOk(t, s) {
      }
    }
  }

  lemma VersionsCheckedIff(t: Tables)
    ensures VersionsChecked(t) <==> VersionsOk(t.versions, t.schedules.Keys)
  {
    if VersionsOk(t.versions, t.schedules.Keys) {
      forall v <- t.versions, w <- t.versions | v != w ensures !SameVersionNumber(t.versions[v], t.versions[w]) {
      }
    }
  }

  lemma OccurrencesCheckedIff(t: Tables)
    ensures OccurrencesChecked(t) <==> OccurrencesOk(t.occurrences, t.schedules.Keys, t.versions)
  {
    if OccurrencesOk(t.occurrences, t.schedules.Keys, t.versions) {
      forall o <- t.occurrences, p <- t.occurrences | o != p ensures !SameTick(t.occurrences[o], t.occurrences[p]) {
      }
    }
  }

  lemma BindingsCheckedIff(t: Tables)
    ensures BindingsChecked(t) <==>
            && MissionBindingsOk(t.missionBindings, t.occurrences.Keys, t.missions.Keys)
            && CampaignBindingsOk(t.campaignBindings, t.occurrences.Keys, t.campaigns, t.items)
  {
    if MissionBindingsOk(t.missionBindings, t.occurrences.Keys, t.missions.Keys) {
      forall b <- t.missionBindings, c <- t.missionBindings | b != c
        ensures !SharesMissionKey(t.missionBindings[b], t.missionBindings[c])
      {
      }
    }
    if CampaignBindingsOk(t.campaignBindings, t.occurrences.Keys, t.campaigns, t.items) {
      forall b <- t.campaignBindings, c <- t.campaignBindings | b != c
        ensures !SharesItemKey(t.campaignBindings[b], t.campaignBindings[c])
      {
      }
    }
  }

  /** What histories keep is every check, unique key and reference of the migration, and nothing more. */
  lemma IntegrityIff(t: Tables)
    ensures Integrity(t) <==> SchedulesChecked(t) && VersionsChecked(t) && OccurrencesChecked(t) && BindingsChecked(t)
  {
    SchedulesCheckedIff(t);
    VersionsCheckedIff(t);
    OccurrencesCheckedIff(t);
    BindingsCheckedIff(t);
  }

  /** What an ACTIVE schedule can rely on after any history from the empty database. */
  lemma ActiveSchedulesAreExecutable(transactions: seq<seq<Statement>>, s: Id)
    requires s in History(EMPTY, transactions).schedules
    requires History(EMPTY, transactions).schedules[s].status.Active?
    ensures var t := History(EMPTY, transactions);
            var row := t.schedules[s];
            && row.nextRunAt.Some?
            && row.currentVersion.Some? && row.currentVersion.value in t.versions
            && var v := t.versions[row.currentVersion.value];
               && v.scheduleId == s
               && (v.cron.Some? != v.interval.Some?)
               && (v.interval.Some? ==> v.interval.value >= MINIMUM_INTERVAL_SECONDS)
  {
    HistoryKeepsIntegrity(EMPTY, transactions);
    var t := History(EMPTY, transactions);
    assert CurrentVersionOk(t, s) && ScheduleRowOk(t.schedules[s]);
  }

  lemma RunSingle(p: Progress, s: Statement)
    ensures Run(p, [s]) ==
            match Execute(p.tables, s)
            case None => None
            case Some(u) => Some(Progress(u, p.touched + Touched(p.tables, s)))
  {
    if Execute(p.tables, s).Some? {
      var q := Progress(Execute(p.tables, s).value, p.touched + Touched(p.tables, s));
      assert Run(p, [s]) == Run(q, []);
    }
  }

  /** Deleting a schedule commits exactly when it has no occurrence, takes its own versions and
      nothing else, and can never break another schedule's deferred reference. */
  lemma DeleteScheduleExact(t: Tables, s: Id)
    requires Integrity(t) && s in t.schedules
    ensures Transaction(t, [DeleteSchedule(s)]).Some?
            <==> forall o <- t.occurrences :: t.occurrences[o].scheduleId != s
    ensures Transaction(t, [DeleteSchedule(s)]).Some? ==>
              Transaction(t, [DeleteSchedule(s)]).value
              == t.(schedules := t.schedules - {s},
                    versions := map v <- t.versions | t.versions[v].scheduleId != s :: t.versions[v])
  {
    var u := Effect(t, DeleteSchedule(s));
    assert u.versions == map v <- t.versions | t.versions[v].scheduleId != s :: t.versions[v];
    OthersKeepTheirVersion(t, s, u);
    DeleteScheduleCommits(t, s, u);
  }

  lemma DeleteScheduleCommits(t: Tables, s: Id, u: Tables)
    requires s in t.schedules && u == Effect(t, DeleteSchedule(s)) && forall x <- u.schedules :: CurrentVersionOk(u, x)
    ensures Transaction(t, [DeleteSchedule(s)]) ==
            if forall o <- t.occurrences :: t.occurrences[o].scheduleId != s then Some(u) else None
  {
    RunSingle(Progress(t, {}), DeleteSchedule(s));
  }

  lemma OthersKeepTheirVersion(t: Tables, s: Id, u: Tables)
    requires Deferred(t) && u == Effect(t, DeleteSchedule(s))
    ensures forall x <- u.schedules :: CurrentVersionOk(u, x)
  {
    forall x <- u.schedules ensures CurrentVersionOk(u, x) {
      assert x in t.schedules && CurrentVersionOk(t, x);
    }
  }

  /** Deleting one version commits exactly when nothing uses it: no occurrence, no current pointer. */
  lemma DeleteVersionExact(t: Tables, v: Id)
    requires Integrity(t) && v in t.versions
    ensures Transaction(t, [DeleteVersion(v)]).Some?
            <==> !UsedByOccurrence(t, v) && forall s <- t.schedules :: t.schedules[s].currentVersion != Some(v)
  {
    var u := Effect(t, DeleteVersion(v));
    RunSingle(Progress(t, {}), DeleteVersion(v));
    if Execute(t, DeleteVersion(v)).Some? {
      var touched := {} + Touched(t, DeleteVersion(v));
      if forall s <- t.schedules :: t.schedules[s].currentVersion != Some(v) {
        assert touched == {};
      } else {
        var s :| s in t.schedules && t.schedules[s].currentVersion == Some(v);
        assert s in touched && s in u.schedules && !CurrentVersionOk(u, s);
      }
    }
  }

  /** A schedule may name its version before that version exists: only the commit looks. */
  lemma CreateDraftCommits(t: Tables, s: Id, v: Id, schedule: Schedule, version: Version)
    requires Integrity(t) && s !in t.schedules && v !in t.versions
    requires ScheduleRowOk(schedule) && schedule.currentVersion == Some(v)
    requires VersionRowOk(version) && version.scheduleId == s
    ensures Transaction(t, [InsertSchedule(s, schedule), InsertVersion(v, version)]) ==
            Some(t.(schedules := t.schedules[s := schedule], versions := t.versions[v := version]))
    ensures Transaction(t, [InsertSchedule(s, schedule)]) == None
  {
    var one, two := InsertSchedule(s, schedule), InsertVersion(v, version);
    var t1 := Effect(t, one);
    assert VersionFits(t1, v, version);
    var t2 := Effect(t1, two);
    var p1 := Progress(t1, {} + {s});
    assert Run(Progress(t, {}), [one]) == Run(p1, []);
    assert [one, two][1..] == [two];
    assert Run(Progress(t, {}), [one, two]) == Run(p1, [two]) == Run(Progress(t2, p1.touched + {}), []);
    assert !CurrentVersionOk(t1, s) && s in p1.touched;
  }

  // ---- Transactions that leave schedules and versions alone ----

  predicate LeavesReferences(s: Statement) {
    || s.InsertOccurrence? || s.UpdateOccurrence? || s.DeleteOccurrence?
    || s.InsertMission? || s.DeleteMission? || s.InsertMissionBinding? || s.DeleteMissionBinding?
    || s.InsertCampaign? || s.DeleteCampaign? || s.InsertItem? || s.DeleteItem?
    || s.InsertCampaignBinding? || s.DeleteCampaignBinding?
  }

  function Then(t: Option<Tables>, s: Statement): Option<Tables> {
    match t
    case None => None
    case Some(u) => Execute(u, s)
  }

  lemma RunOfOne(p: Progress, s: Statement)
    requires LeavesReferences(s)
    ensures Run(p, [s]) == match Execute(p.tables, s) case None => None case Some(u) => Some(Progress(u, p.touched))
  {
    if Execute(p.tables, s).Some? {
      var q := Progress(Execute(p.tables, s).value, p.touched + {});
      assert p.touched + {} == p.touched;
      assert Run(p, [s]) == Run(q, []);
    }
  }

  /** Nothing to recheck: such a transaction commits when each statement passes in turn. */
  lemma TransactionOfOne(t: Tables, a: Statement)
    requires LeavesReferences(a)
    ensures Transaction(t, [a]) == Execute(t, a)
  {
    RunOfOne(Progress(t, {}), a);
  }

  lemma TransactionOfTwo(t: Tables, a: Statement, b: Statement)
    requires LeavesReferences(a) && LeavesReferences(b)
    ensures Transaction(t, [a, b]) == Then(Execute(t, a), b)
  {
    RunOfOne(Progress(t, {}), a);
    RunAppend(Progress(t, {}), [a], b);
    assert [a] + [b] == [a, b];
    if Execute(t, a).Some? {
      RunOfOne(Progress(Execute(t, a).value, {}), b);
    }
  }

  lemma TransactionOfThree(t: Tables, a: Statement, b: Statement, c: Statement)
    requires LeavesReferences(a) && LeavesReferences(b) && LeavesReferences(c)
    ensures Transaction(t, [a, b, c]) == Then(Then(Execute(t, a), b), c)
  {
    RunOfOne(Progress(t, {}), a);
    RunAppend(Progress(t, {}), [a], b);
    assert [a] + [b] == [a, b];
    RunAppend(Progress(t, {}), [a, b], c);
    assert [a, b] + [c] == [a, b, c];
    if Execute(t, a).Some? {
      RunOfOne(Progress(Execute(t, a).value, {}), b);
      if Then(Execute(t, a), b).Some? {
        RunOfOne(Progress(Then(Execute(t, a), b).value, {}), c);
      }
    }
  }

  // ---- Bindings: at most one mission for each tick of a schedule ----

  /** Missions bound to occurrences of the schedule. */
  function MissionsOf(t: Tables, schedule: Id): (r: set<Id>)
    requires forall b <- t.missionBindings :: t.missionBindings[b].occurrenceId in t.occurrences
  {
    set b <- t.missionBindings |
      t.occurrences[t.missionBindings[b].occurrenceId].scheduleId == schedule
      :: t.missionBindings[b].missionId
  }

  function InstantsOf(t: Tables, schedule: Id): (r: set<int>) {
    set o <- t.occurrences | t.occurrences[o].scheduleId == schedule :: t.occurrences[o].at
  }

  /** The binding that a mission of the schedule has. */
  ghost function BindingOf(t: Tables, schedule: Id, mission: Id): (b: Id)
    requires MissionBindingsOk(t.missionBindings, t.occurrences.Keys, t.missions.Keys)
    requires mission in MissionsOf(t, schedule)
    ensures b in t.missionBindings && t.missionBindings[b].missionId == mission
    ensures t.occurrences[t.missionBindings[b].occurrenceId].scheduleId == schedule
  {
    var b :| && b in t.missionBindings && t.missionBindings[b].missionId == mission
             && t.occurrences[t.missionBindings[b].occurrenceId].scheduleId == schedule;
    b
  }

  ghost function InstantOf(t: Tables, schedule: Id, mission: Id): (at: int)
    requires MissionBindingsOk(t.missionBindings, t.occurrences.Keys, t.missions.Keys)
    requires mission in MissionsOf(t, schedule)
    ensures at in InstantsOf(t, schedule)
  {
    t.occurrences[t.missionBindings[BindingOf(t, schedule, mission)].occurrenceId].at
  }

  lemma InstantOfInjective(t: Tables, schedule: Id, m: Id, n: Id)
    requires Immediate(t) && m in MissionsOf(t, schedule) && n in MissionsOf(t, schedule)
    requires InstantOf(t, schedule, m) == InstantOf(t, schedule, n)
    ensures m == n
  {
    var b, c := BindingOf(t, schedule, m), BindingOf(t, schedule, n);
    var o, p := t.missionBindings[b].occurrenceId, t.missionBindings[c].occurrenceId;
    if o != p {
      assert SameTick(t.occurrences[o], t.occurrences[p]);
    }
    assert SharesMissionKey(t.missionBindings[b], t.missionBindings[c]);
  }

  lemma {:induction false} InjectiveMapSize(m: map<Id, int>)
    requires forall a <- m, b <- m | m[a] == m[b] :: a == b
    ensures |m.Values| == |m.Keys|
    decreases |m|
  {
    if m.Keys != {} {
      var k :| k in m.Keys;
      var rest := m - {k};
      InjectiveMapSize(rest);
      assert m.Values == rest.Values + {m[k]} by {
        forall v <- m.Values ensures v in rest.Values + {m[k]} {
          var a :| a in m && m[a] == v;
          assert a == k || (a in rest && rest[a] == v);
        }
      }
      assert m[k] !in rest.Values;
      assert m.Keys == rest.Keys + {k};
    }
  }

  lemma SubsetIsNoLarger(a: set<int>, b: set<int>)
    requires a <= b
    ensures |a| <= |b|
  {
    assert b == a + (b - a);
  }

  lemma MissionsBoundedByInstants(t: Tables, schedule: Id)
    requires Immediate(t)
    ensures |MissionsOf(t, schedule)| <= |InstantsOf(t, schedule)|
  {
    var instants := map m <- MissionsOf(t, schedule) :: InstantOf(t, schedule, m);
    forall m <- instants, n <- instants | instants[m] == instants[n] ensures m == n {
      InstantOfInjective(t, schedule, m, n);
    }
    InjectiveMapSize(instants);
    assert instants.Keys == MissionsOf(t, schedule);
    SubsetIsNoLarger(instants.Values, InstantsOf(t, schedule));
  }

  /** After any history a schedule has no more missions than it has distinct occurrence instants. */
  lemma MissionsAtMostInstants(transactions: seq<seq<Statement>>, schedule: Id)
    ensures var t := History(EMPTY, transactions);
            Immediate(t) && |MissionsOf(t, schedule)| <= |InstantsOf(t, schedule)|
  {
    HistoryKeepsIntegrity(EMPTY, transactions);
    MissionsBoundedByInstants(History(EMPTY, transactions), schedule);
  }

  /** Over any history the bindings are a partial injection from occurrences to missions,
      and each bound occurrence runs a version of its own schedule. */
  lemma BindingsAreInjective(transactions: seq<seq<Statement>>, b: Id, c: Id)
    requires var t := History(EMPTY, transactions); b in t.missionBindings && c in t.missionBindings
    ensures var t := History(EMPTY, transactions);
            && (t.missionBindings[b].occurrenceId == t.missionBindings[c].occurrenceId
                <==> t.missionBindings[b].missionId == t.missionBindings[c].missionId)
            && t.missionBindings[b].occurrenceId in t.occurrences
            && var o := t.occurrences[t.missionBindings[b].occurrenceId];
               o.versionId in t.versions && t.versions[o.versionId].scheduleId == o.scheduleId
  {
    HistoryKeepsIntegrity(EMPTY, transactions);
  }

  // ---- The session that the services hold ----

  /** A database connection: statements change the session's view, commit publishes it. */
  class Session {
    var committed: Tables
    var working: Tables
    var touched: set<Id>
    var aborted: bool
    ghost var statements: seq<Statement>

    ghost predicate Valid()
      reads this
    {
      && Integrity(committed)
      && (aborted <==> Run(Progress(committed, {}), statements).None?)
      && (!aborted ==> Run(Progress(committed, {}), statements) == Some(Progress(working, touched)))
    }

    constructor (t: Tables)
      requires Integrity(t)
      ensures Valid() && committed == t && statements == []
    {
      committed, working, touched, aborted, statements := t, t, {}, false, [];
    }

    /** Run one statement; after an error every later statement fails too. */
    method Perform(s: Statement) returns (ok: bool)
      requires Valid()
      modifies this
      ensures Valid() && committed == old(committed) && statements == old(statements) + [s]
      ensures ok <==> Run(Progress(committed, {}), statements).Some?
    {
      RunAppend(Progress(committed, {}), statements, s);
      if aborted || RepeatsKey(working, s) || !Admits(working, s) {
        aborted := true;
      } else {
        touched := touched + Touched(working, s);
        working := Effect(working, s);
      }
      statements := statements + [s];
      ok := !aborted;
    }

    method Commit() returns (ok: bool)
      requires Valid()
      modifies this
      ensures Valid() && statements == []
      ensures ok <==> Transaction(old(committed), old(statements)).Some?
      ensures committed == if ok then Transaction(old(committed), old(statements)).value else old(committed)
    {
      TransactionKeepsIntegrity(committed, statements);
      ok := !aborted && forall s <- touched | s in working.schedules :: CurrentVersionOk(working, s);
      if ok {
        committed := working;
      }
      Rollback();
    }

    method Rollback()
      requires Integrity(committed)
      modifies this
      ensures Valid() && committed == old(committed) && statements == []
    {
      working, touched, aborted, statements := committed, {}, false, [];
    }
  }

  lemma {:induction false} RunAppend(p: Progress, statements: seq<Statement>, s: Statement)
    ensures Run(p, statements + [s]) ==
            match Run(p, statements)
            case None => None
            case Some(q) => Run(q, [s])
    ensures Run(p, statements).Some? ==>
              var q := Run(p, statements).value;
              Run(q, [s]) == match Execute(q.tables, s)
                             case None => None
                             case Some(t) => Some(Progress(t, q.touched + Touched(q.tables, s)))
    decreases |statements|
  {
    if statements == [] {
      assert [] + [s] == [s];
    } else {
      assert (statements + [s])[1..] == statements[1..] + [s];
      match Execute(p.tables, statements[0])
      case None =>
      case Some(t) => RunAppend(Progress(t, p.touched + Touched(p.tables, statements[0])), statements[1..], s);
    }
  }
}
