/** One sync run as a transaction, and the alerts over all runs (backend/app/services/collector.py,
    acknowledge_alert in backend/app/api/routes.py). */
module SyncRun {
  import opened Common

  // ----- Tables -----

  datatype Environment = Environment(status: string, healthScore: int, lastSyncedAt: Option<nat>,
                                     lastSyncError: Option<string>)
  datatype Resource = Resource(environment: string, service: string, kind: string, externalId: string, name: string)
  datatype Snapshot = Snapshot(environment: string, service: string, summary: string, collectedAt: nat)
  datatype Sample = Sample(environment: string, status: string, score: int, collectedAt: nat)
  datatype Alert = Alert(environment: string, acknowledged: bool, resolved: bool)
  datatype ExecutionStatus = Running | Completed | Failed
  datatype Execution = Execution(environment: string, status: ExecutionStatus, finishedAt: Option<nat>,
                                 error: Option<string>)

  datatype Database = Database(environments: map<string, Environment>, resources: seq<Resource>,
                               snapshots: seq<Snapshot>,
                               samples: seq<Sample>, alerts: seq<Alert>, executions: map<nat, Execution>)

  /** uq_resource_env_service_type_external */
  predicate SameResource(a: Resource, b: Resource)
  {
    a.environment == b.environment && a.service == b.service && a.kind == b.kind && a.externalId == b.externalId
  }

  predicate UniqueResources(rows: seq<Resource>)
  {
    forall i, j :: 0 <= i < j < |rows| ==> !SameResource(rows[i], rows[j])
  }

  /** uq_snapshot_env_service */
  predicate UniqueSnapshots(rows: seq<Snapshot>)
  {
    forall i, j :: 0 <= i < j < |rows| ==>
      rows[i].environment != rows[j].environment || rows[i].service != rows[j].service
  }

  /** The uniqueness rules the database checks at commit. */
  predicate Consistent(db: Database)
  {
    UniqueResources(db.resources) && UniqueSnapshots(db.snapshots)
  }

  // ----- Signals: samples and alerts -----

  const SampleWindow: nat := 14 * 24 * 3600

  predicate Open(alert: Alert, environment: string)
  {
    alert.environment == environment && !alert.acknowledged && !alert.resolved
  }

  /** The first open alert of the environment, or the number of alerts when there is none. */
  function FirstOpen(alerts: seq<Alert>, environment: string): (k: nat)
    ensures k <= |alerts|
    ensures k < |alerts| ==> Open(alerts[k], environment)
    ensures forall i :: 0 <= i < k ==> !Open(alerts[i], environment)
  {
    if alerts == [] || Open(alerts[0], environment) then 0 else 1 + FirstOpen(alerts[1..], environment)
  }

  function KeepSamples(samples: seq<Sample>, environment: string, now: nat): (r: seq<Sample>)
    ensures forall x :: x in r <==>
      x in samples && !(x.environment == environment && x.collectedAt + SampleWindow < now)
  {
    if samples == [] then []
    else
      var expired := samples[0].environment == environment && samples[0].collectedAt + SampleWindow < now;
      (if expired then [] else [samples[0]]) + KeepSamples(samples[1..], environment, now)
  }

  function Clamp(score: int): int
  {
    if score < 0 then 0 else if score > 100 then 100 else score
  }

  function SignalAlerts(alerts: seq<Alert>, environment: string, previous: string, status: string): seq<Alert>
  {
    var k := FirstOpen(alerts, environment);
    if status == "critical" then
      if k == |alerts| && previous != "critical" then alerts + [Alert(environment, false, false)] else alerts
    else if k < |alerts| then alerts[k := alerts[k].(resolved := true)]
    else alerts
  }

  function Acknowledged(alerts: seq<Alert>, alert: nat): seq<Alert>
    requires alert < |alerts|
  {
    alerts[alert := alerts[alert].(acknowledged := true)]
  }

  /** A new execution. */
  function Begun(environment: string): Execution
  {
    Execution(environment, Running, None, None)
  }

  /** record_fleet_signal */
  function Signal(db: Database, environment: string, previous: string, status: string, score: int, now: nat): Database
  {
    db.(samples := KeepSamples(db.samples, environment, now) + [Sample(environment, status, Clamp(score), now)],
        alerts := SignalAlerts(db.alerts, environment, previous, status))
  }

  /** Older than fourteen days. */
  predicate Expired(sample: Sample, environment: string, now: nat)
  {
    sample.environment == environment && now > sample.collectedAt + 14 * 24 * 3600
  }

  lemma {:induction false} KeptSamples(samples: seq<Sample>, environment: string, now: nat, x: Sample)
    ensures multiset(KeepSamples(samples, environment, now))[x] ==
      if Expired(x, environment, now) then 0 else multiset(samples)[x]
  {
    if samples != [] {
      assert samples == [samples[0]] + samples[1..];
      KeptSamples(samples[1..], environment, now, x);
    }
  }

  /** A signal drops the environment's samples older than 14 days, each other one stays as often as it
      was, and exactly one sample is added: with this status and time, and the reported score within 0..100. */
  lemma SamplesStayInWindow(db: Database, environment: string, previous: string, status: string, score: int, now: nat)
    ensures var samples := Signal(db, environment, previous, status, score, now).samples;
      samples != [] &&
      (forall x :: multiset(samples[..|samples| - 1])[x] ==
        if Expired(x, environment, now) then 0 else multiset(db.samples)[x])
    ensures var samples := Signal(db, environment, previous, status, score, now).samples;
      var added := samples[|samples| - 1];
      added.environment == environment && added.status == status && added.collectedAt == now &&
      0 <= added.score <= 100 && (0 <= score <= 100 ==> added.score == score) &&
      (score < 0 ==> added.score == 0) && (score > 100 ==> added.score == 100)
  {
    var samples := Signal(db, environment, previous, status, score, now).samples;
    assert samples[..|samples| - 1] == KeepSamples(db.samples, environment, now);
    forall x { KeptSamples(db.samples, environment, now, x); }
  }

  // ----- Outcomes of a run -----

  datatype Service = Service(name: string, summary: string)

  /** What the connector answered. Resources are given without their environment. */
  datatype Collection =
    | Collected(status: string, healthScore: int, services: seq<Service>, resources: seq<Resource>)
    | CollectError(error: string)

  function Others(rows: seq<Resource>, environment: string): (r: seq<Resource>)
    ensures forall x :: x in r <==> x in rows && x.environment != environment
  {
    if rows == [] then []
    else (if rows[0].environment == environment then [] else [rows[0]]) + Others(rows[1..], environment)
  }

  function RowsFor(environment: string, resources: seq<Resource>): (r: seq<Resource>)
    ensures |r| == |resources|
    ensures forall i :: 0 <= i < |r| ==> r[i] == resources[i].(environment := environment)
  {
    seq(|resources|, i requires 0 <= i < |resources| => resources[i].(environment := environment))
  }

  /** upsert_snapshot */
  function Upsert(rows: seq<Snapshot>, row: Snapshot): seq<Snapshot>
  {
    if rows == [] then [row]
    else if rows[0].environment == row.environment && rows[0].service == row.service then [row] + rows[1..]
    else [rows[0]] + Upsert(rows[1..], row)
  }

  function UpsertAll(rows: seq<Snapshot>, environment: string, services: seq<Service>, now: nat): seq<Snapshot>
    decreases |services|
  {
    if services == [] then rows
    else UpsertAll(Upsert(rows, Snapshot(environment, services[0].name, services[0].summary, now)), environment,
                   services[1..], now)
  }

  /** The executions with the end of one; it is gone when its environment was deleted meanwhile. */
  function Ended(executions: map<nat, Execution>, execution: nat, status: ExecutionStatus, now: nat,
                 error: Option<string>): map<nat, Execution>
  {
    if execution !in executions then executions
    else
      var row := executions[execution].(status := status, finishedAt := Some(now));
      executions[execution := if error.Some? then row.(error := error) else row]
  }

  /** The database after a run that replaced the inventory. */
  function Applied(db: Database, execution: nat, environment: string, previous: string, result: Collection,
                   now: nat): Database
    requires result.Collected?
  {
    var updated := db.(
      resources := Others(db.resources, environment) + RowsFor(environment, result.resources),
      snapshots := UpsertAll(db.snapshots, environment, result.services, now),
      environments := db.environments[environment := Environment(result.status, result.healthScore, Some(now), None)]);
    Signal(updated, environment, previous, result.status, result.healthScore, now).(
      executions := Ended(db.executions, execution, Completed, now, None))
  }

  /** The database after a run that failed: only the execution, the environment's status and the signal. */
  function Recorded(db: Database, execution: nat, environment: string, error: string, now: nat): Database
  {
    var marked := db.(executions := Ended(db.executions, execution, Failed, now, Some(error)));
    if environment !in db.environments then marked
    else
      var row := db.environments[environment];
      Signal(marked.(environments := db.environments[
               environment := row.(status := "critical", lastSyncError := Some(error), lastSyncedAt := Some(now))]),
             environment, row.status, "critical", 0, now)
  }

  /** The run gets through: the environment is still there, no resource key repeats, and nothing else
      raised. late is any other exception up to and including the commit: of the policy evaluation, or
      the refusal of a value that is longer than its column. */
  predicate Succeeds(db: Database, environment: string, result: Collection, late: Option<string>)
  {
    environment in db.environments && result.Collected? && late.None? &&
    UniqueResources(RowsFor(environment, result.resources))
  }

  function FinishedRun(db: Database, execution: nat, environment: string, previous: string, result: Collection,
                       late: Option<string>, error: string, now: nat): Database
  {
    if Succeeds(db, environment, result, late) then Applied(db, execution, environment, previous, result, now)
    else Recorded(db, execution, environment, error, now)
  }

  // ----- The session -----

  /** Committed tables and the working copy of the open transaction. */
  class Session {
    var committed: Database
    var working: Database

    constructor (db: Database)
      ensures committed == working == db
    {
      committed, working := db, db;
    }

    method Commit() returns (ok: bool)
      modifies this`committed
      ensures ok == Consistent(working)
      ensures committed == if ok then working else old(committed)
    {
      ok := UniqueResources(working.resources) && UniqueSnapshots(working.snapshots);
      if ok {
        committed := working;
      }
    }

    method Rollback()
      modifies this`working
      ensures working == committed
    {
      working := committed;
    }

    /** The first commit. Without the environment the foreign key refuses the execution. */
    method Begin(execution: nat, environment: string) returns (previous: Option<string>)
      requires working == committed && Consistent(committed) && execution !in committed.executions
      modifies this
      ensures working == committed
      ensures previous.None? <==> environment !in old(committed).environments
      ensures previous.None? ==> committed == old(committed)
      ensures previous.Some? ==> previous.value == old(committed).environments[environment].status
      ensures previous.Some? ==>
        committed == old(committed).(executions :=
          old(committed).executions[execution := Execution(environment, Running, None, None)])
    {
      if environment !in working.environments {
        return None;
      }
      working := working.(executions := working.executions[execution := Execution(environment, Running, None, None)]);
      var ok := Commit();
      return Some(working.environments[environment].status);
    }

    method RecordFleetSignal(environment: string, previous: string, status: string, score: int, now: nat)
      modifies this`working
      ensures working == Signal(old(working), environment, previous, status, score, now)
    {
      var sample := Sample(environment, status, if score < 0 then 0 else if score > 100 then 100 else score, now);
      working := working.(samples := KeepSamples(working.samples, environment, now) + [sample]);
      var openAlert := FirstOpen(working.alerts, environment);
      if status == "critical" {
        if openAlert == |working.alerts| && previous != "critical" {
          working := working.(alerts := working.alerts + [Alert(environment, false, false)]);
        }
      } else if openAlert < |working.alerts| {
        working := working.(alerts := working.alerts[openAlert := working.alerts[openAlert].(resolved := true)]);
      }
    }

    method UpsertSnapshots(environment: string, services: seq<Service>, now: nat)
      modifies this`working
      ensures working == old(working).(snapshots := UpsertAll(old(working).snapshots, environment, services, now))
    {
      for i := 0 to |services|
        invariant working == old(working).(snapshots := working.snapshots)
        invariant UpsertAll(working.snapshots, environment, services[i..], now) ==
          UpsertAll(old(working).snapshots, environment, services, now)
      {
        assert services[i..][1..] == services[i + 1..];
        working := working.(snapshots := Upsert(working.snapshots,
                                                Snapshot(environment, services[i].name, services[i].summary, now)));
      }
    }

    method AddResources(environment: string, resources: seq<Resource>)
      modifies this`working
      ensures working == old(working).(resources := old(working).resources + RowsFor(environment, resources))
    {
      for i := 0 to |resources|
        invariant working == old(working).(resources := old(working).resources + RowsFor(environment, resources)[..i])
      {
        working := working.(resources := working.resources + [resources[i].(environment := environment)]);
      }
      assert RowsFor(environment, resources)[..|resources|] == RowsFor(environment, resources);
    }

    /** The try block after the collection. previous was read before it; late is any other
        exception up to and including the commit. Raised stands for the except branch. */
    method Replace(execution: nat, environment: string, previous: string, result: Collection, late: Option<string>,
                   now: nat)
      returns (raised: bool)
      requires working == committed && Consistent(committed)
      requires result.Collected? ==> DistinctServices(result.services)
      modifies this
      ensures raised <==> !Succeeds(old(committed), environment, result, late)
      ensures !raised ==> working == committed == Applied(old(committed), execution, environment, previous, result, now)
      ensures raised ==> committed == old(committed)
    {
      if environment !in working.environments || result.CollectError? {
        return true;
      }
      working := working.(resources := Others(working.resources, environment));
      UpsertSnapshots(environment, result.services, now);
      AddResources(environment, result.resources);
      var row := Environment(result.status, result.healthScore, Some(now), None);
      working := working.(environments := working.environments[environment := row]);
      RecordFleetSignal(environment, previous, result.status, result.healthScore, now);
      if late.Some? {
        return true;
      }
      if execution in working.executions {
        working := working.(executions := working.executions[
          execution := working.executions[execution].(status := Completed, finishedAt := Some(now))]);
      }
      UpsertAllUnique(committed.snapshots, environment, result.services, now);
      UniqueAfterReplace(committed.resources, environment, result.resources);
      var ok := Commit();
      return !ok;
    }

    /** The rest of the run: replace the inventory, or roll back and record the failure. */
    method Finish(execution: nat, environment: string, previous: string, result: Collection, late: Option<string>,
                  error: string, now: nat)
      returns (ok: bool)
      requires working == committed && Consistent(committed)
      requires result.Collected? ==> DistinctServices(result.services)
      modifies this
      ensures working == committed && Consistent(committed)
      ensures ok <==> Succeeds(old(committed), environment, result, late)
      ensures committed == FinishedRun(old(committed), execution, environment, previous, result, late, error, now)
    {
      var raised := Replace(execution, environment, previous, result, late, now);
      if !raised {
        AppliedConsistent(old(committed), execution, environment, previous, result, now);
        return true;
      }
      Rollback();
      if execution in working.executions {
        working := working.(executions := working.executions[
          execution := working.executions[execution].(status := Failed, finishedAt := Some(now),
                                                      error := Some(error))]);
      }
      if environment in working.environments {
        var row := working.environments[environment];
        working := working.(environments := working.environments[
          environment := row.(status := "critical", lastSyncError := Some(error), lastSyncedAt := Some(now))]);
        RecordFleetSignal(environment, row.status, "critical", 0, now);
      }
      var _ := Commit();
      return false;
    }

    method AcknowledgeAlert(alert: nat) returns (found: bool)
      requires working == committed
      modifies this
      ensures working == committed
      ensures found <==> alert < |old(committed).alerts|
      ensures committed == if found
        then old(committed).(alerts :=
          old(committed).alerts[alert := old(committed).alerts[alert].(acknowledged := true)])
        else old(committed)
    {
      if alert >= |working.alerts| {
        return false;
      }
      working := working.(alerts := working.alerts[alert := working.alerts[alert].(acknowledged := true)]);
      committed := working;
      return true;
    }
  }

  // ----- Unique rows -----

  /** The summaries are a dictionary by service name. */
  predicate DistinctServices(services: seq<Service>)
  {
    forall i, j :: 0 <= i < j < |services| ==> services[i].name != services[j].name
  }

  lemma {:induction false} UpsertUnique(rows: seq<Snapshot>, row: Snapshot)
    requires UniqueSnapshots(rows)
    ensures UniqueSnapshots(Upsert(rows, row))
    ensures forall x :: x in Upsert(rows, row) <==>
      x == row || (x in rows && !(x.environment == row.environment && x.service == row.service))
  {
    if rows != [] && !(rows[0].environment == row.environment && rows[0].service == row.service) {
      UpsertUnique(rows[1..], row);
    }
  }

  lemma {:induction false} UpsertAllUnique(rows: seq<Snapshot>, environment: string, services: seq<Service>, now: nat)
    requires UniqueSnapshots(rows)
    ensures UniqueSnapshots(UpsertAll(rows, environment, services, now))
    decreases |services|
  {
    if services != [] {
      var row := Snapshot(environment, services[0].name, services[0].summary, now);
      UpsertUnique(rows, row);
      UpsertAllUnique(Upsert(rows, row), environment, services[1..], now);
    }
  }

  lemma {:induction false} OthersUnique(rows: seq<Resource>, environment: string)
    requires UniqueResources(rows)
    ensures UniqueResources(Others(rows, environment))
  {
    if rows != [] {
      OthersUnique(rows[1..], environment);
    }
  }

  lemma UniqueAfterReplace(rows: seq<Resource>, environment: string, resources: seq<Resource>)
    requires UniqueResources(rows)
    ensures UniqueResources(Others(rows, environment) + RowsFor(environment, resources)) <==>
      UniqueResources(RowsFor(environment, resources))
  {
    var kept, added := Others(rows, environment), RowsFor(environment, resources);
    var all := kept + added;
    OthersUnique(rows, environment);
    if UniqueResources(all) {
      forall i, j | 0 <= i < j < |added| ensures !SameResource(added[i], added[j]) {
        assert !SameResource(all[|kept| + i], all[|kept| + j]);
      }
    }
    if UniqueResources(added) {
      forall i, j | 0 <= i < j < |all| ensures !SameResource(all[i], all[j]) {
        if i < |kept| <= j {
          assert all[i] in kept && all[j] == added[j - |kept|];
        }
      }
    }
  }

  lemma AppliedConsistent(db: Database, execution: nat, environment: string, previous: string, result: Collection,
                          now: nat)
    requires Consistent(db) && Succeeds(db, environment, result, None)
    ensures Consistent(Applied(db, execution, environment, previous, result, now))
  {
    UpsertAllUnique(db.snapshots, environment, result.services, now);
    UniqueAfterReplace(db.resources, environment, result.resources);
  }

  // ----- All or nothing -----

  /** The rows of one environment. */
  function Mine(rows: seq<Resource>, environment: string): seq<Resource>
  {
    if rows == [] then []
    else (if rows[0].environment == environment then [rows[0]] else []) + Mine(rows[1..], environment)
  }

  lemma MineOfOthers(rows: seq<Resource>, environment: string, added: seq<Resource>)
    requires forall x :: x in added ==> x.environment == environment
    ensures Mine(Others(rows, environment) + added, environment) == added
    ensures Others(Others(rows, environment) + added, environment) == Others(rows, environment)
  {
    var kept := Others(rows, environment);
    MineConcat(kept, added, environment);
    OthersConcat(kept, added, environment);
    AllOthers(kept, environment);
    AllMine(added, environment);
    assert kept + [] == kept && [] + added == added;
  }

  lemma {:induction false} MineConcat(a: seq<Resource>, b: seq<Resource>, environment: string)
    ensures Mine(a + b, environment) == Mine(a, environment) + Mine(b, environment)
  {
    if a == [] {
      assert a + b == b;
    } else {
      var first := if a[0].environment == environment then [a[0]] else [];
      assert (a + b)[0] == a[0] && (a + b)[1..] == a[1..] + b;
      MineConcat(a[1..], b, environment);
      assert first + (Mine(a[1..], environment) + Mine(b, environment)) ==
        (first + Mine(a[1..], environment)) + Mine(b, environment);
    }
  }

  lemma {:induction false} OthersConcat(a: seq<Resource>, b: seq<Resource>, environment: string)
    ensures Others(a + b, environment) == Others(a, environment) + Others(b, environment)
  {
    if a == [] {
      assert a + b == b;
    } else {
      var first := if a[0].environment == environment then [] else [a[0]];
      assert (a + b)[0] == a[0] && (a + b)[1..] == a[1..] + b;
      OthersConcat(a[1..], b, environment);
      assert first + (Others(a[1..], environment) + Others(b, environment)) ==
        (first + Others(a[1..], environment)) + Others(b, environment);
    }
  }

  lemma {:induction false} AllMine(rows: seq<Resource>, environment: string)
    requires forall x :: x in rows ==> x.environment == environment
    ensures Mine(rows, environment) == rows && Others(rows, environment) == []
  {
    if rows != [] { AllMine(rows[1..], environment); }
  }

  lemma {:induction false} AllOthers(rows: seq<Resource>, environment: string)
    requires forall x :: x in rows ==> x.environment != environment
    ensures Mine(rows, environment) == [] && Others(rows, environment) == rows
  {
    if rows != [] { AllOthers(rows[1..], environment); }
  }

  predicate Concerns(x: Snapshot, environment: string, services: seq<Service>)
  {
    x.environment == environment && exists i :: 0 <= i < |services| && services[i].name == x.service
  }

  predicate Fresh(x: Snapshot, environment: string, services: seq<Service>, now: nat)
  {
    exists i :: 0 <= i < |services| && x == Snapshot(environment, services[i].name, services[i].summary, now)
  }

  /** The collected services have their new summary, every other snapshot is the old one. */
  lemma {:induction false} UpsertAllExact(rows: seq<Snapshot>, environment: string, services: seq<Service>, now: nat)
    requires UniqueSnapshots(rows) && DistinctServices(services)
    ensures forall x :: x in UpsertAll(rows, environment, services, now) <==>
      (x in rows && !Concerns(x, environment, services)) || Fresh(x, environment, services, now)
    decreases |services|
  {
    if services != [] {
      var row := Snapshot(environment, services[0].name, services[0].summary, now);
      var rest := services[1..];
      UpsertUnique(rows, row);
      UpsertAllExact(Upsert(rows, row), environment, rest, now);
      forall x ensures Concerns(x, environment, services) <==>
        (x.environment == environment && x.service == services[0].name) || Concerns(x, environment, rest) {
        ShiftedServices(services, x, environment, now);
      }
      forall x ensures Fresh(x, environment, services, now) <==> x == row || Fresh(x, environment, rest, now) {
        ShiftedServices(services, x, environment, now);
      }
      assert !Concerns(row, environment, rest);
    }
  }

  lemma ShiftedServices(services: seq<Service>, x: Snapshot, environment: string, now: nat)
    requires services != []
    ensures Concerns(x, environment, services) <==>
      (x.environment == environment && x.service == services[0].name) || Concerns(x, environment, services[1..])
    ensures Fresh(x, environment, services, now) <==>
      x == Snapshot(environment, services[0].name, services[0].summary, now) ||
      Fresh(x, environment, services[1..], now)
  {
  }

  /** Main result: a run whose environment is still registered ends completed or failed. It completes
      exactly when the collection succeeded with distinct resource keys and nothing raised; then the
      inventory is the collected one. Otherwise inventory and snapshots are the previous ones. The
      error is set exactly when the run failed, and a failed run leaves the status critical. */
  lemma {:induction false} AllOrNothing(db: Database, execution: nat, environment: string, previous: string,
                                        result: Collection,
                     late: Option<string>, error: string, now: nat)
    requires Consistent(db) && environment in db.environments && execution in db.executions
    requires result.Collected? ==> DistinctServices(result.services)
    ensures var after := FinishedRun(db, execution, environment, previous, result, late, error, now);
      var ok := Succeeds(db, environment, result, late);
      Consistent(after) &&
      after.executions == db.executions[execution := after.executions[execution]] &&
      after.executions[execution].status == (if ok then Completed else Failed) &&
      after.executions[execution].finishedAt == Some(now) &&
      Others(after.resources, environment) == Others(db.resources, environment) &&
      Mine(after.resources, environment) ==
        (if ok then RowsFor(environment, result.resources) else Mine(db.resources, environment)) &&
      (!ok ==> after.snapshots == db.snapshots && after.resources == db.resources) &&
      (after.environments[environment].lastSyncError.Some? <==> !ok) &&
      (!ok ==> after.environments[environment].status == "critical") &&
      (ok ==> after.environments[environment].status == result.status) &&
      after.environments[environment].lastSyncedAt == Some(now)
    ensures Succeeds(db, environment, result, late) ==>
      forall x :: x in FinishedRun(db, execution, environment, previous, result, late, error, now).snapshots <==>
        (x in db.snapshots && !Concerns(x, environment, result.services)) || Fresh(x, environment, result.services, now)
  {
    if Succeeds(db, environment, result, late) {
      AppliedConsistent(db, execution, environment, previous, result, now);
      MineOfOthers(db.resources, environment, RowsFor(environment, result.resources));
      UpsertAllExact(db.snapshots, environment, result.services, now);
    }
  }

  /** The rows a run writes, field by field: its environment's, its execution's and its sample. */
  lemma RunByField(db: Database, execution: nat, environment: string, previous: string, result: Collection,
                   late: Option<string>, error: string, now: nat)
    requires environment in db.environments && execution in db.executions
    ensures var after := FinishedRun(db, execution, environment, previous, result, late, error, now);
      var ok := Succeeds(db, environment, result, late);
      after.environments == db.environments[environment := after.environments[environment]] &&
      after.environments[environment] ==
        (if ok then Environment(result.status, result.healthScore, Some(now), None)
         else Environment("critical", db.environments[environment].healthScore, Some(now), Some(error))) &&
      after.executions == db.executions[execution :=
        Execution(db.executions[execution].environment, if ok then Completed else Failed, Some(now),
                  if ok then db.executions[execution].error else Some(error))] &&
      after.samples != [] && after.samples[|after.samples| - 1].status == (if ok then result.status else "critical") &&
      (!ok ==> after.samples[|after.samples| - 1].score == 0) &&
      (ok && 0 <= result.healthScore <= 100 ==> after.samples[|after.samples| - 1].score == result.healthScore)
  {
  }

  /** Exactly when a run succeeds: the environment is registered, the collection answered without a
      repeated resource key, and nothing else raised. */
  lemma SucceedsExactly(db: Database, environment: string, result: Collection, late: Option<string>)
    ensures Succeeds(db, environment, result, late) <==>
      environment in db.environments && late == None && result.Collected? &&
      forall i, j :: 0 <= i < j < |result.resources| ==>
        result.resources[i].service != result.resources[j].service ||
        result.resources[i].kind != result.resources[j].kind ||
        result.resources[i].externalId != result.resources[j].externalId
  {
    if result.Collected? {
      var rows := RowsFor(environment, result.resources);
      assert forall i, j :: 0 <= i < j < |rows| ==> (SameResource(rows[i], rows[j]) <==>
        result.resources[i].service == result.resources[j].service &&
        result.resources[i].kind == result.resources[j].kind &&
        result.resources[i].externalId == result.resources[j].externalId);
    }
  }

  /** A repeated resource key makes the whole run fail, and nothing of the collection stays. */
  lemma DuplicateKeysRollBack(db: Database, execution: nat, environment: string, previous: string, result: Collection,
                              late: Option<string>, error: string, now: nat, i: nat, j: nat)
    requires Consistent(db) && environment in db.environments && result.Collected?
    requires i < j < |result.resources|
    requires result.resources[i].service == result.resources[j].service &&
      result.resources[i].kind == result.resources[j].kind
    requires result.resources[i].externalId == result.resources[j].externalId
    ensures var after := FinishedRun(db, execution, environment, previous, result, late, error, now);
      after.resources == db.resources && after.snapshots == db.snapshots &&
      after.environments[environment].lastSyncError == Some(error)
  {
  }

  // ----- Alerts over runs -----

  /** A run between its first commit and its end: its execution and the status it read. */
  datatype Pending = Pending(execution: nat, previous: string)

  /** At most one run per environment at a time, as the sync lock provides. */
  datatype Fleet = Fleet(db: Database, pending: map<string, Pending>, nextExecution: nat)

  datatype Event =
    | Register(environment: string)
    | Remove(environment: string)
    | Begin(environment: string)
    | Finish(environment: string, result: Collection, late: Option<string>, error: string, now: nat)
    | Acknowledge(alert: nat)

  function AlertsWithout(alerts: seq<Alert>, environment: string): seq<Alert>
  {
    if alerts == [] then []
    else (if alerts[0].environment == environment then [] else [alerts[0]]) + AlertsWithout(alerts[1..], environment)
  }

  /** Deleting an environment deletes the rows that refer to it; the other tables follow the same rule. */
  function Step(fleet: Fleet, event: Event): Fleet
  {
    var db := fleet.db;
    match event
    case Register(environment) =>
      if environment in db.environments || environment in fleet.pending then fleet
      else fleet.(db := db.(environments := db.environments[environment := Environment("unknown", 0, None, None)]))
    case Remove(environment) =>
      fleet.(db := db.(environments := db.environments - {environment},
                       alerts := AlertsWithout(db.alerts, environment)))
    case Begin(environment) =>
      if environment in fleet.pending || environment !in db.environments then fleet
      else Fleet(db.(executions := db.executions[fleet.nextExecution := Begun(environment)]),
                 fleet.pending[environment := Pending(fleet.nextExecution, db.environments[environment].status)],
                 fleet.nextExecution + 1)
    case Finish(environment, result, late, error, now) =>
      if environment !in fleet.pending then fleet
      else
        var run := fleet.pending[environment];
        fleet.(db := FinishedRun(db, run.execution, environment, run.previous, result, late, error, now),
               pending := fleet.pending - {environment})
    case Acknowledge(alert) =>
      if alert >= |db.alerts| then fleet
      else fleet.(db := db.(alerts := Acknowledged(db.alerts, alert)))
  }

  function RunAll(fleet: Fleet, events: seq<Event>): Fleet
    decreases |events|
  {
    if events == [] then fleet else RunAll(Step(fleet, events[0]), events[1..])
  }

  predicate Critical(db: Database, environment: string)
  {
    environment in db.environments && db.environments[environment].status == "critical"
  }

  predicate OneOpen(alerts: seq<Alert>, environment: string)
  {
    forall i, j :: 0 <= i < j < |alerts| ==> !(Open(alerts[i], environment) && Open(alerts[j], environment))
  }

  /** At most one open alert for each environment, and only while its committed status is critical. */
  ghost predicate AlertsSound(fleet: Fleet)
  {
    (forall e :: OneOpen(fleet.db.alerts, e)) &&
    (forall a :: a in fleet.db.alerts ==> Open(a, a.environment) ==> Critical(fleet.db, a.environment)) &&
    (forall e :: e in fleet.pending && e in fleet.db.environments ==>
      fleet.pending[e].previous == fleet.db.environments[e].status)
  }

  function CountAlerts(alerts: seq<Alert>, environment: string): nat
  {
    if alerts == [] then 0
    else (if alerts[0].environment == environment then 1 else 0) + CountAlerts(alerts[1..], environment)
  }

  /** One when the step turns a registered environment critical. */
  function Turned(before: Fleet, after: Fleet, environment: string): nat
  {
    if environment in before.db.environments && !Critical(before.db, environment) &&
      Critical(after.db, environment) then 1 else 0
  }

  function Transitions(fleet: Fleet, events: seq<Event>, environment: string): nat
    decreases |events|
  {
    if events == [] then 0
    else
      Turned(fleet, Step(fleet, events[0]), environment) +
      Transitions(Step(fleet, events[0]), events[1..], environment)
  }

  lemma {:induction false} CountUpdate(alerts: seq<Alert>, k: nat, alert: Alert, environment: string)
    requires k < |alerts| && alert.environment == alerts[k].environment
    ensures CountAlerts(alerts[k := alert], environment) == CountAlerts(alerts, environment)
  {
    if k > 0 {
      assert alerts[k := alert][1..] == alerts[1..][k - 1 := alert];
      CountUpdate(alerts[1..], k - 1, alert, environment);
    } else {
      assert alerts[k := alert][1..] == alerts[1..];
    }
  }

  lemma {:induction false} CountAppend(alerts: seq<Alert>, alert: Alert, environment: string)
    ensures CountAlerts(alerts + [alert], environment) ==
      CountAlerts(alerts, environment) + if alert.environment == environment then 1 else 0
  {
    if alerts == [] {
      assert [] + [alert] == [alert];
    } else {
      assert (alerts + [alert])[1..] == alerts[1..] + [alert];
      CountAppend(alerts[1..], alert, environment);
    }
  }

  /** One signal creates an alert exactly on a transition to critical, and closes the open one on recovery. */
  lemma SignalStep(alerts: seq<Alert>, environment: string, previous: string, status: string)
    requires forall e :: OneOpen(alerts, e)
    requires forall a :: a in alerts && Open(a, environment) ==> previous == "critical"
    ensures var after := SignalAlerts(alerts, environment, previous, status);
      (forall e :: OneOpen(after, e)) &&
      (forall a :: a in after && Open(a, a.environment) ==>
        if a.environment == environment then status == "critical" else a in alerts) &&
      (forall e :: CountAlerts(after, e) ==
        CountAlerts(alerts, e) + if e == environment && status == "critical" && previous != "critical" then 1 else 0)
  {
    var k := FirstOpen(alerts, environment);
    if k < |alerts| { assert alerts[k] in alerts; }
    if status == "critical" {
      forall e { CountAppend(alerts, Alert(environment, false, false), e); }
    } else if k < |alerts| {
      forall e { CountUpdate(alerts, k, alerts[k].(resolved := true), e); }
      forall i | 0 <= i < |alerts| && i != k ensures !Open(alerts[i], environment) {
        assert OneOpen(alerts, environment);
        assert i < k || !(Open(alerts[k], environment) && Open(alerts[i], environment));
      }
    }
    forall e ensures OneOpen(SignalAlerts(alerts, environment, previous, status), e) {
      assert OneOpen(alerts, e);
    }
  }

  /** What a signal does to the alerts: it opens one on a turn to critical, resolves the open one on any
      other status, and otherwise changes none; acknowledgements and older alerts stay. */
  lemma AlertsByStatus(alerts: seq<Alert>, environment: string, previous: string, status: string)
    requires OneOpen(alerts, environment)
    requires forall a :: a in alerts && Open(a, environment) ==> previous == "critical"
    ensures var after := SignalAlerts(alerts, environment, previous, status);
      (status == "critical" && previous != "critical" ==> after == alerts + [Alert(environment, false, false)]) &&
      (status == "critical" && previous == "critical" ==> after == alerts) &&
      (status != "critical" ==> |after| == |alerts|)
    ensures var after := SignalAlerts(alerts, environment, previous, status);
      forall i :: 0 <= i < |alerts| && status != "critical" ==>
        after[i] == if Open(alerts[i], environment) then Alert(environment, false, true) else alerts[i]
  {
    var k := FirstOpen(alerts, environment);
    if k < |alerts| {
      assert alerts[k] in alerts;
      forall i | 0 <= i < |alerts| && i != k ensures !Open(alerts[i], environment) {
        assert i < k || !(Open(alerts[k], environment) && Open(alerts[i], environment));
      }
    }
  }

  lemma {:induction false} WithoutSound(alerts: seq<Alert>, environment: string)
    requires forall e :: OneOpen(alerts, e)
    ensures forall e :: OneOpen(AlertsWithout(alerts, environment), e)
    ensures forall a :: a in AlertsWithout(alerts, environment) <==> a in alerts && a.environment != environment
    ensures forall e :: e != environment ==>
      CountAlerts(AlertsWithout(alerts, environment), e) == CountAlerts(alerts, e)
  {
    if alerts != [] {
      forall e ensures OneOpen(alerts[1..], e) {
        assert OneOpen(alerts, e);
      }
      WithoutSound(alerts[1..], environment);
      var rest := AlertsWithout(alerts[1..], environment);
      if alerts[0].environment == environment {
        assert AlertsWithout(alerts, environment) == rest;
      } else {
        forall e ensures OneOpen([alerts[0]] + rest, e) {
          assert OneOpen(alerts, e) && OneOpen(rest, e);
          forall j | 0 <= j < |rest| ensures !(Open(alerts[0], e) && Open(rest[j], e)) {
            assert rest[j] in alerts[1..];
          }
        }
      }
    }
  }

  /** What a finished run does to the alerts and to the status of its environment. */
  lemma FinishedSignals(db: Database, execution: nat, environment: string, previous: string, result: Collection,
                        late: Option<string>, error: string, now: nat)
    requires environment in db.environments && previous == db.environments[environment].status
    ensures var after := FinishedRun(db, execution, environment, previous, result, late, error, now);
      environment in after.environments &&
      after.environments == db.environments[environment := after.environments[environment]] &&
      after.alerts == SignalAlerts(db.alerts, environment, previous, after.environments[environment].status)
  {
  }

  lemma FinishSound(fleet: Fleet, event: Event, e: string)
    requires AlertsSound(fleet) && event.Finish? && event.environment in fleet.pending
    ensures AlertsSound(Step(fleet, event))
    ensures CountAlerts(Step(fleet, event).db.alerts, e) ==
      CountAlerts(fleet.db.alerts, e) + Turned(fleet, Step(fleet, event), e)
  {
    var environment, db, run := event.environment, fleet.db, fleet.pending[event.environment];
    if environment in db.environments {
      assert run.previous == db.environments[environment].status;
      FinishedSignals(db, run.execution, environment, run.previous, event.result, event.late, event.error, event.now);
      assert forall a :: a in db.alerts && Open(a, environment) ==> run.previous == "critical";
      SignalStep(db.alerts, environment, run.previous, Step(fleet, event).db.environments[environment].status);
    }
  }

  lemma AcknowledgeSound(fleet: Fleet, alert: nat, e: string)
    requires AlertsSound(fleet) && alert < |fleet.db.alerts|
    ensures AlertsSound(Step(fleet, Acknowledge(alert)))
    ensures CountAlerts(Step(fleet, Acknowledge(alert)).db.alerts, e) == CountAlerts(fleet.db.alerts, e)
  {
    var alerts := fleet.db.alerts;
    var after := alerts[alert := alerts[alert].(acknowledged := true)];
    CountUpdate(alerts, alert, alerts[alert].(acknowledged := true), e);
    forall x ensures OneOpen(after, x) {
      assert OneOpen(alerts, x);
    }
  }

  lemma StepSound(fleet: Fleet, event: Event, e: string)
    requires AlertsSound(fleet)
    ensures AlertsSound(Step(fleet, event))
    ensures !(event.Remove? && event.environment == e) ==>
      CountAlerts(Step(fleet, event).db.alerts, e) ==
        CountAlerts(fleet.db.alerts, e) + Turned(fleet, Step(fleet, event), e)
  {
    match event
    case Finish(environment, _, _, _, _) => if environment in fleet.pending { FinishSound(fleet, event, e); }
    case Acknowledge(alert) => if alert < |fleet.db.alerts| { AcknowledgeSound(fleet, alert, e); }
    case Remove(environment) => WithoutSound(fleet.db.alerts, environment);
    case _ =>
  }

  /** Main result: in every run of syncs, at most one at a time for each environment, and acknowledgements
      in between: no environment has two open alerts, an open alert means a critical status, and the
      alerts created for an environment are as many as its turns from another status to critical. */
  lemma {:induction false} AlertEpisodes(fleet: Fleet, events: seq<Event>, environment: string)
    requires AlertsSound(fleet)
    requires forall i :: 0 <= i < |events| ==> !(events[i].Remove? && events[i].environment == environment)
    ensures AlertsSound(RunAll(fleet, events))
    ensures CountAlerts(RunAll(fleet, events).db.alerts, environment) ==
      CountAlerts(fleet.db.alerts, environment) + Transitions(fleet, events, environment)
    decreases |events|
  {
    if events != [] {
      StepSound(fleet, events[0], environment);
      AlertEpisodes(Step(fleet, events[0]), events[1..], environment);
    }
  }
}
