/** Locks, jobs and the scheduler (backend/app/services/collector.py, backend/app/scheduler.py). */
module SyncQueue {
  import opened Common

  /** Seconds a sync lock lives, counted from the enqueue. */
  const LockTtl: nat := 900

  datatype Job = Job(environment: string, enqueuedAt: nat, started: bool)

  datatype Settings = Settings(managed: bool, intervalMinutes: nat, lastSyncedAt: Option<nat>)

  /** Clock in seconds; lock keys with their expiry; jobs queued or running; registered environments. */
  datatype Hub = Hub(now: nat, locks: map<string, nat>, jobs: map<nat, Job>, nextJob: nat, environments: map<string,
                     Settings>)

  /** The key is there: set, and not expired. */
  predicate Held(hub: Hub, environment: string)
  {
    environment in hub.locks && hub.now < hub.locks[environment]
  }

  predicate Due(hub: Hub, environment: string)
    requires environment in hub.environments
  {
    var settings := hub.environments[environment];
    settings.lastSyncedAt.None? || hub.now - settings.lastSyncedAt.value >= 60 * settings.intervalMinutes
  }

  /** The environments a scheduler cycle tries. */
  predicate Wanted(hub: Hub, environment: string)
  {
    environment in hub.environments && hub.environments[environment].managed && Due(hub, environment)
  }

  function Pushed(hub: Hub, environment: string): Hub
  {
    hub.(locks := hub.locks[environment := hub.now + LockTtl],
         jobs := hub.jobs[hub.nextJob := Job(environment, hub.now, false)],
         nextJob := hub.nextJob + 1)
  }

  /** SET NX EX, then the push; a failed push deletes the key again. */
  function EnqueueSync(hub: Hub, environment: string, pushOk: bool): Hub
  {
    if Held(hub, environment) then hub
    else if pushOk then Pushed(hub, environment)
    else hub.(locks := hub.locks - {environment})
  }

  /** How a push ends; the cycle passes over a RuntimeError like the refusal of a held lock. */
  datatype Push = Accepted | RuntimeError | OtherError

  predicate Tries(hub: Hub, environment: string)
  {
    Wanted(hub, environment) && !Held(hub, environment)
  }

  /** One scheduler cycle: a held lock is passed over, a push that fails otherwise ends the cycle. */
  function EnqueueDue(hub: Hub, order: seq<string>, push: string -> Push): Hub
    decreases |order|
  {
    if order == [] then hub
    else if Tries(hub, order[0]) && push(order[0]).OtherError? then EnqueueSync(hub, order[0], false)
    else EnqueueDue(Tried(hub, order[0], push), order[1..], push)
  }

  /** The hub after the cycle has looked at one environment. */
  function Tried(hub: Hub, environment: string, push: string -> Push): Hub
  {
    if Wanted(hub, environment) then EnqueueSync(hub, environment, push(environment).Accepted?) else hub
  }

  /** No exception leaves the cycle. */
  predicate Returns(hub: Hub, order: seq<string>, push: string -> Push)
  {
    forall e :: e in order && Tries(hub, e) ==> !push(e).OtherError?
  }

  /** No push of the cycle failed. */
  predicate Completes(hub: Hub, order: seq<string>, push: string -> Push)
  {
    forall e :: e in order && Tries(hub, e) ==> push(e).Accepted?
  }

  datatype Event =
    | Advance(seconds: nat)
    | ApiSync(environment: string, pushOk: bool)
    | Tick(order: seq<string>, pushes: string -> Push)
    | Start(job: nat, committed: bool)
    | Finish(job: nat, released: bool)
    | Die(job: nat)
    | Configure(environment: string, managed: bool, intervalMinutes: nat)
    | Remove(environment: string)

  /** The settings with the time of the last sync of one environment. */
  function Stamped(hub: Hub, environment: string): map<string, Settings>
  {
    if environment !in hub.environments then hub.environments
    else hub.environments[environment := hub.environments[environment].(lastSyncedAt := Some(hub.now))]
  }

  /** Start without a commit: the failure is outside the try block, so the lock stays.
      Finish, in success or failure, stamps the environment and deletes the key, whoever set it.
      Die: the worker is gone before its finally block. */
  function Step(hub: Hub, event: Event): Hub
  {
    match event
    case Advance(seconds) => hub.(now := hub.now + seconds)
    case ApiSync(environment, pushOk) =>
      if environment in hub.environments && hub.environments[environment].managed
      then EnqueueSync(hub, environment, pushOk) else hub
    case Tick(order, push) => EnqueueDue(hub, order, push)
    case Start(job, committed) =>
      if job !in hub.jobs || hub.jobs[job].started then hub
      else if committed then hub.(jobs := hub.jobs[job := hub.jobs[job].(started := true)])
      else hub.(jobs := hub.jobs - {job})
    case Finish(job, released) =>
      if job !in hub.jobs || !hub.jobs[job].started then hub
      else
        var environment := hub.jobs[job].environment;
        hub.(jobs := hub.jobs - {job},
             locks := if released then hub.locks - {environment} else hub.locks,
             environments := Stamped(hub, environment))
    case Die(job) => hub.(jobs := hub.jobs - {job})
    case Configure(environment, managed, intervalMinutes) =>
      var last := if environment in hub.environments then hub.environments[environment].lastSyncedAt else None;
      hub.(environments := hub.environments[environment := Settings(managed, intervalMinutes, last)])
    case Remove(environment) => hub.(environments := hub.environments - {environment})
  }

  function Run(hub: Hub, events: seq<Event>): Hub
    decreases |events|
  {
    if events == [] then hub else Run(Step(hub, events[0]), events[1..])
  }

  // ----- The code, step by step -----

  datatype Enqueued = Queued(job: nat) | InProgress | PushFailed

  class SyncHub {
    var now: nat
    var locks: map<string, nat>
    var jobs: map<nat, Job>
    var nextJob: nat
    var environments: map<string, Settings>

    function State(): Hub
      reads this
    {
      Hub(now, locks, jobs, nextJob, environments)
    }

    constructor (hub: Hub)
      ensures State() == hub
    {
      now, locks, jobs, nextJob, environments := hub.now, hub.locks, hub.jobs, hub.nextJob, hub.environments;
    }

    method Enqueue(environment: string, pushOk: bool) returns (r: Enqueued)
      modifies this`locks, this`jobs, this`nextJob
      ensures State() == EnqueueSync(old(State()), environment, pushOk)
      ensures r.InProgress? <==> Held(old(State()), environment)
      ensures r.PushFailed? ==> State() == old(State()).(locks := old(locks) - {environment})
      ensures r.Queued? ==> r.job == old(nextJob) && State() == Pushed(old(State()), environment)
      ensures r.Queued? ==>
        jobs == old(jobs)[r.job := Job(environment, now, false)] && locks == old(locks)[environment := now + 900]
    {
      if environment in locks && now < locks[environment] {
        return InProgress;
      }
      locks := locks[environment := now + LockTtl];
      if !pushOk {
        locks := locks - {environment};
        assert locks == old(locks) - {environment};
        return PushFailed;
      }
      jobs := jobs[nextJob := Job(environment, now, false)];
      nextJob := nextJob + 1;
      return Queued(nextJob - 1);
    }

    /** The ids of the queued jobs, or none when an exception ends the cycle. */
    method EnqueueDueSyncs(order: seq<string>, push: string -> Push) returns (jobIds: Option<seq<nat>>)
      modifies this`locks, this`jobs, this`nextJob
      ensures State() == EnqueueDue(old(State()), order, push)
      ensures jobIds.Some? <==> Returns(old(State()), order, push)
      ensures jobIds.Some? ==> |jobIds.value| == nextJob - old(nextJob)
      ensures jobIds.Some? ==> forall k :: 0 <= k < |jobIds.value| ==> jobIds.value[k] == old(nextJob) + k
    {
      var ids: seq<nat> := [];
      for i := 0 to |order|
        invariant EnqueueDue(State(), order[i..], push) == EnqueueDue(old(State()), order, push)
        invariant now == old(now) && environments == old(environments)
        invariant Returns(State(), order[i..], push) <==> Returns(old(State()), order, push)
        invariant |ids| == nextJob - old(nextJob) && forall k :: 0 <= k < |ids| ==> ids[k] == old(nextJob) + k
      {
        ReturnsStep(State(), order[i..], push);
        assert order[i..][0] == order[i] && order[i..][1..] == order[i + 1..];
        var environment := order[i];
        if environment !in environments || !environments[environment].managed {
          continue;
        }
        var settings := environments[environment];
        var shouldSync := false;
        if settings.lastSyncedAt.None? {
          shouldSync := true;
        } else {
          shouldSync := now - settings.lastSyncedAt.value >= 60 * settings.intervalMinutes;
        }
        if shouldSync {
          var r := Enqueue(environment, push(environment).Accepted?);
          if r.PushFailed? && push(environment).OtherError? {
            return None;
          }
          if r.Queued? {
            ids := ids + [r.job];
          }
        }
      }
      return Some(ids);
    }

    /** A worker takes the job; without its first commit the job is gone and its lock stays. */
    method BeginRun(job: nat, committed: bool)
      requires job in jobs && !jobs[job].started
      modifies this`jobs
      ensures State() == Step(old(State()), Start(job, committed))
      ensures job in jobs <==> committed
      ensures committed ==> jobs[job] == Job(old(jobs)[job].environment, old(jobs)[job].enqueuedAt, true)
    {
      if committed {
        jobs := jobs[job := jobs[job].(started := true)];
      } else {
        jobs := jobs - {job};
      }
    }

    /** The end of a run. The key is deleted without asking who set it; released: Redis answered. */
    method EndRun(job: nat, released: bool)
      requires job in jobs && jobs[job].started
      modifies this`jobs, this`locks, this`environments
      ensures State() == Step(old(State()), Finish(job, released))
      ensures job !in jobs && (released ==> old(jobs)[job].environment !in locks)
      ensures old(jobs)[job].environment in environments ==>
        environments[old(jobs)[job].environment].lastSyncedAt == Some(now)
    {
      var environment := jobs[job].environment;
      if environment in environments {
        environments := environments[environment := environments[environment].(lastSyncedAt := Some(now))];
      }
      if released {
        locks := locks - {environment};
      }
      jobs := jobs - {job};
    }
  }

  // ----- Mutual exclusion -----

  /** Every job in flight has the lock entry it set, and no environment has two jobs in flight. */
  ghost predicate Exclusive(hub: Hub)
  {
    (forall id :: id in hub.jobs ==> id < hub.nextJob) &&
    (forall id :: id in hub.jobs ==>
      hub.jobs[id].environment in hub.locks &&
      hub.locks[hub.jobs[id].environment] == hub.jobs[id].enqueuedAt + LockTtl) &&
    forall a, b :: a in hub.jobs && b in hub.jobs && hub.jobs[a].environment == hub.jobs[b].environment ==> a == b
  }

  /** The timing the lock relies on: every job in flight was enqueued less than 900 seconds ago. */
  ghost predicate Punctual(hub: Hub)
  {
    forall id :: id in hub.jobs ==> hub.now < hub.jobs[id].enqueuedAt + LockTtl
  }

  ghost predicate PunctualRun(hub: Hub, events: seq<Event>)
    decreases |events|
  {
    Punctual(hub) && (events != [] ==> PunctualRun(Step(hub, events[0]), events[1..]))
  }

  lemma EnqueueKeepsExclusive(hub: Hub, environment: string, pushOk: bool)
    requires Exclusive(hub) && Punctual(hub)
    ensures Exclusive(EnqueueSync(hub, environment, pushOk)) && Punctual(EnqueueSync(hub, environment, pushOk))
  {
  }

  lemma {:induction false} CycleKeepsExclusive(hub: Hub, order: seq<string>, push: string -> Push)
    requires Exclusive(hub) && Punctual(hub)
    ensures Exclusive(EnqueueDue(hub, order, push))
    decreases |order|
  {
    if order != [] {
      EnqueueKeepsExclusive(hub, order[0], false);
      EnqueueKeepsExclusive(hub, order[0], true);
      if !(Tries(hub, order[0]) && push(order[0]).OtherError?) {
        CycleKeepsExclusive(Tried(hub, order[0], push), order[1..], push);
      }
    }
  }

  lemma StepKeepsExclusive(hub: Hub, event: Event)
    requires Exclusive(hub) && Punctual(hub)
    ensures Exclusive(Step(hub, event))
  {
    match event
    case ApiSync(environment, pushOk) => EnqueueKeepsExclusive(hub, environment, pushOk);
    case Tick(order, push) => CycleKeepsExclusive(hub, order, push);
    case _ =>
  }

  /** Main result: in every interleaving in which each job ends within 900 seconds of its enqueue, an
      environment never has two jobs in flight, and its lock is held while one is. */
  lemma {:induction false} MutualExclusion(hub: Hub, events: seq<Event>)
    requires Exclusive(hub) && PunctualRun(hub, events)
    ensures var later := Run(hub, events);
      Exclusive(later) && forall id :: id in later.jobs ==> Held(later, later.jobs[id].environment)
    decreases |events|
  {
    if events != [] {
      StepKeepsExclusive(hub, events[0]);
      MutualExclusion(Step(hub, events[0]), events[1..]);
    }
  }

  /** Exactly when the lock protects a job in flight: another enqueue is refused if and only if less
      than 900 seconds have passed since the job was enqueued. Afterwards two jobs are in flight. */
  lemma ProtectedUntilTtl(hub: Hub, job: nat)
    requires Exclusive(hub) && job in hub.jobs
    ensures var environment := hub.jobs[job].environment;
      (EnqueueSync(hub, environment, true) == hub <==> hub.now < hub.jobs[job].enqueuedAt + LockTtl) &&
      (Exclusive(EnqueueSync(hub, environment, true)) <==> hub.now < hub.jobs[job].enqueuedAt + LockTtl)
  {
    var environment := hub.jobs[job].environment;
    var after := EnqueueSync(hub, environment, true);
    if hub.now >= hub.jobs[job].enqueuedAt + LockTtl {
      assert after.nextJob == hub.nextJob + 1;
      assert job in after.jobs && hub.nextJob in after.jobs && job != hub.nextJob;
      assert after.jobs[job].environment == after.jobs[hub.nextJob].environment;
    }
  }

  /** The job timeout counts from the start and the lock from the enqueue, so a job that waits ten
      seconds and runs for 895 of its 900 is overtaken; when it ends it deletes the lock of its
      successor, and a third job joins that one. */
  lemma WaitingJobIsOvertaken()
    ensures var hub := Hub(0, map[], map[], 0, map["e" := Settings(true, 5, None)]);
      var overtaken := Run(hub, [ApiSync("e", true), Advance(10), Start(0, true), Advance(895), ApiSync("e", true)]);
      var unlocked := Run(overtaken, [Finish(0, true), ApiSync("e", true)]);
      overtaken.jobs.Keys == {0, 1} && unlocked.jobs.Keys == {1, 2}
  {
  }

  // ----- Which environments a cycle enqueues -----

  /** A job for the environment joined. */
  predicate Added(before: Hub, after: Hub, environment: string)
  {
    exists id :: id in after.jobs && id !in before.jobs && after.jobs[id].environment == environment
  }

  /** A cycle adds jobs and locks only: what it keeps, and what it adds. */
  lemma {:induction false} CycleFrame(hub: Hub, order: seq<string>, push: string -> Push)
    requires forall id :: id in hub.jobs ==> id < hub.nextJob
    ensures var after := EnqueueDue(hub, order, push);
      after.now == hub.now && after.environments == hub.environments && after.nextJob >= hub.nextJob &&
      (forall id :: id in hub.jobs ==> id in after.jobs && after.jobs[id] == hub.jobs[id]) &&
      (forall id :: id in after.jobs ==> id < after.nextJob) &&
      (forall id :: id in after.jobs && id !in hub.jobs ==>
        hub.nextJob <= id && after.jobs[id].enqueuedAt == hub.now &&
        Wanted(hub, after.jobs[id].environment) && !Held(hub, after.jobs[id].environment)) &&
      (forall e :: Held(hub, e) ==> Held(after, e)) &&
      (forall e :: e in after.locks ==>
        (Added(hub, after, e) && after.locks[e] == hub.now + LockTtl) ||
        (e in hub.locks && after.locks[e] == hub.locks[e]))
    decreases |order|
  {
    if order != [] {
      var e := order[0];
      var next := Tried(hub, e, push);
      if !(Tries(hub, e) && push(e).OtherError?) {
        CycleFrame(next, order[1..], push);
        var after := EnqueueDue(next, order[1..], push);
        forall x | Added(next, after, x) ensures Added(hub, after, x) {
          var id :| id in after.jobs && id !in next.jobs && after.jobs[id].environment == x;
          assert id !in hub.jobs;
        }
        if hub.nextJob in next.jobs {
          assert hub.nextJob in after.jobs && after.jobs[hub.nextJob].environment == e;
          assert Added(hub, after, e);
        }
      }
    }
  }

  /** Main result: a cycle that returns enqueues exactly the listed environments that are managed, due
      and unlocked and whose push succeeds. */
  lemma {:induction false} CycleIsExact(hub: Hub, order: seq<string>, push: string -> Push)
    requires (forall id :: id in hub.jobs ==> id < hub.nextJob) && Returns(hub, order, push)
    ensures forall e :: Added(hub, EnqueueDue(hub, order, push), e) <==>
      e in order && Tries(hub, e) && push(e).Accepted?
    decreases |order|
  {
    if order != [] {
      var e := order[0];
      var next := Tried(hub, e, push);
      var after := EnqueueDue(hub, order, push);
      ReturnsStep(hub, order, push);
      CycleFrame(next, order[1..], push);
      CycleIsExact(next, order[1..], push);
      forall x ensures Added(hub, after, x) <==> x in order && Tries(hub, x) && push(x).Accepted? {
        assert x in order <==> x == e || x in order[1..];
        if Added(hub, after, x) {
          var id :| id in after.jobs && id !in hub.jobs && after.jobs[id].environment == x;
          assert id in next.jobs || Added(next, after, x);
        }
        if x == e && Tries(hub, e) && push(e).Accepted? {
          assert hub.nextJob in next.jobs && hub.nextJob in after.jobs && after.jobs[hub.nextJob].environment == e;
        }
        if x != e && x in order && Tries(hub, x) && push(x).Accepted? {
          assert Added(next, after, x);
          var id :| id in after.jobs && id !in next.jobs && after.jobs[id].environment == x;
          assert id !in hub.jobs;
        }
      }
    }
  }

  lemma ReturnsStep(hub: Hub, order: seq<string>, push: string -> Push)
    requires order != []
    ensures var e := order[0];
      Returns(hub, order, push) <==>
        (Tries(hub, e) ==> !push(e).OtherError?) && Returns(Tried(hub, e, push), order[1..], push)
  {
    var e := order[0];
    var next := Tried(hub, e, push);
    assert forall x :: x in order <==> x == e || x in order[1..];
    assert forall x :: Wanted(next, x) <==> Wanted(hub, x);
    assert forall x :: Held(next, x) <==> Held(hub, x) || (x == e && Wanted(hub, e) && push(e).Accepted?);
  }

  // ----- The same in seconds -----

  /** When a job enqueued now can be followed by another one, if nobody deletes the key: 900 seconds later. */
  lemma LockLastsFifteenMinutes(hub: Hub, environment: string, wait: nat)
    requires !(environment in hub.locks && hub.now < hub.locks[environment])
    ensures var locked := EnqueueSync(hub, environment, true);
      var later := Step(locked, Advance(wait));
      locked.nextJob == hub.nextJob + 1 && (EnqueueSync(later, environment, true) == later <==> wait < 900)
  {
    var later := Step(EnqueueSync(hub, environment, true), Advance(wait));
    assert EnqueueSync(later, environment, true) != later ==>
      EnqueueSync(later, environment, true).nextJob > later.nextJob;
  }

  /** A request of a user adds a job exactly for a managed environment without a live lock, if the push succeeds. */
  lemma ApiAddsExactly(hub: Hub, environment: string, pushOk: bool, e: string)
    requires forall id :: id in hub.jobs ==> id < hub.nextJob
    ensures Added(hub, Step(hub, ApiSync(environment, pushOk)), e) <==>
      e == environment && pushOk && e in hub.environments && hub.environments[e].managed &&
      !(e in hub.locks && hub.now < hub.locks[e])
  {
    var after := Step(hub, ApiSync(environment, pushOk));
    if e == environment && after.nextJob > hub.nextJob {
      assert hub.nextJob in after.jobs && after.jobs[hub.nextJob].environment == e;
    }
  }

  /** Managed, without a live lock, and never synchronized or not in the last interval of so many minutes. */
  predicate Overdue(hub: Hub, e: string)
  {
    e in hub.environments && hub.environments[e].managed && !(e in hub.locks && hub.now < hub.locks[e]) &&
    (hub.environments[e].lastSyncedAt.Some? ==>
      hub.now >= hub.environments[e].lastSyncedAt.value + 60 * hub.environments[e].intervalMinutes)
  }

  /** Main result: unless the push of an overdue environment ends it, a cycle adds a job for exactly the
      listed environments that are overdue and whose push succeeds. */
  lemma CycleInSeconds(hub: Hub, order: seq<string>, push: string -> Push)
    requires forall id :: id in hub.jobs ==> id < hub.nextJob
    requires forall e :: e in order && Overdue(hub, e) ==> push(e) != OtherError
    ensures forall e :: Added(hub, EnqueueDue(hub, order, push), e) <==>
      e in order && Overdue(hub, e) && push(e) == Accepted
  {
    assert forall e :: Tries(hub, e) <==> Overdue(hub, e);
    CycleIsExact(hub, order, push);
  }

  /** Some scheduler cycle of the run adds a job for the environment. */
  predicate CycleAdds(hub: Hub, events: seq<Event>, environment: string)
    decreases |events|
  {
    events != [] &&
    ((events[0].Tick? && Added(hub, Step(hub, events[0]), environment)) ||
     CycleAdds(Step(hub, events[0]), events[1..], environment))
  }

  /** Synchronized at that second or later, and with this interval. */
  predicate SyncedSince(hub: Hub, environment: string, time: nat, minutes: nat)
  {
    environment in hub.environments && hub.environments[environment].intervalMinutes == minutes &&
    hub.environments[environment].lastSyncedAt.Some? &&
    time <= hub.environments[environment].lastSyncedAt.value <= hub.now
  }

  lemma StepKeepsSynced(hub: Hub, event: Event, environment: string, time: nat, minutes: nat)
    requires SyncedSince(hub, environment, time, minutes) && !Changes(event, environment)
    requires forall id :: id in hub.jobs ==> id < hub.nextJob
    ensures SyncedSince(Step(hub, event), environment, time, minutes)
    ensures forall id :: id in Step(hub, event).jobs ==> id < Step(hub, event).nextJob
    ensures hub.now <= Step(hub, event).now
  {
    if event.Tick? { CycleFrame(hub, event.order, event.pushes); }
  }

  lemma {:induction false} TimeGoesOn(hub: Hub, events: seq<Event>)
    requires forall id :: id in hub.jobs ==> id < hub.nextJob
    ensures hub.now <= Run(hub, events).now
    decreases |events|
  {
    if events != [] {
      if events[0].Tick? { CycleFrame(hub, events[0].order, events[0].pushes); }
      TimeGoesOn(Step(hub, events[0]), events[1..]);
    }
  }

  /** Main result: in no run does the scheduler enqueue an environment again before its interval has
      passed since its last synchronization, whatever else happens to the queue. */
  lemma {:induction false} NoEarlySync(hub: Hub, events: seq<Event>, environment: string, time: nat, minutes: nat)
    requires SyncedSince(hub, environment, time, minutes) && LeftAlone(events, environment)
    requires forall id :: id in hub.jobs ==> id < hub.nextJob
    requires Run(hub, events).now < time + 60 * minutes
    ensures !CycleAdds(hub, events, environment)
    decreases |events|
  {
    if events != [] {
      assert forall i :: 0 <= i < |events[1..]| ==> events[1..][i] == events[i + 1];
      StepKeepsSynced(hub, events[0], environment, time, minutes);
      TimeGoesOn(Step(hub, events[0]), events[1..]);
      if events[0].Tick? { TickLeavesFresh(hub, events[0], environment, time, minutes); }
      NoEarlySync(Step(hub, events[0]), events[1..], environment, time, minutes);
    }
  }

  lemma TickLeavesFresh(hub: Hub, event: Event, environment: string, time: nat, minutes: nat)
    requires event.Tick? && SyncedSince(hub, environment, time, minutes) && hub.now < time + 60 * minutes
    requires forall id :: id in hub.jobs ==> id < hub.nextJob
    ensures !Added(hub, Step(hub, event), environment)
  {
    CycleFrame(hub, event.order, event.pushes);
  }

  /** The end of a run starts the interval anew. */
  lemma FinishStartsInterval(hub: Hub, job: nat, released: bool)
    requires job in hub.jobs && hub.jobs[job].started && hub.jobs[job].environment in hub.environments
    ensures var environment := hub.jobs[job].environment;
      SyncedSince(Step(hub, Finish(job, released)), environment, hub.now, hub.environments[environment].intervalMinutes)
  {
  }

  /** Saving an environment sets whether and how often it is synchronized and leaves the time of its last
      sync; deleting it removes only its settings. Locks and jobs stay, as do the other environments. */
  lemma SettingsByEvent(hub: Hub, environment: string, managed: bool, minutes: nat, other: string)
    requires environment != other
    ensures var after := Step(hub, Configure(environment, managed, minutes));
      after == hub.(environments := after.environments) && environment in after.environments &&
      after.environments[environment].managed == managed &&
      after.environments[environment].intervalMinutes == minutes &&
      after.environments[environment].lastSyncedAt ==
        (if environment in hub.environments then hub.environments[environment].lastSyncedAt else None) &&
      SameSettings(hub, after, other)
    ensures var after := Step(hub, Remove(environment));
      after == hub.(environments := after.environments) && environment !in after.environments &&
      SameSettings(hub, after, other)
  {
  }

  predicate SameSettings(a: Hub, b: Hub, environment: string)
  {
    (environment in a.environments <==> environment in b.environments) &&
    (environment in a.environments ==> a.environments[environment] == b.environments[environment])
  }

  // ----- Bounded staleness -----

  /** A run with its bookkeeping: the last completed cycle, and for each environment the last time it
      was enqueued, registered or changed its settings. */
  datatype Watched = Watched(hub: Hub, lastTick: nat, since: map<string, nat>)

  predicate Configures(event: Event, environment: string)
  {
    event.Configure? && event.environment == environment
  }

  ghost predicate CompletedTick(hub: Hub, event: Event)
  {
    event.Tick? && Completes(hub, event.order, event.pushes) && forall e :: e in hub.environments ==> e in event.order
  }

  ghost function Watch(w: Watched, event: Event): Watched
  {
    var after := Step(w.hub, event);
    Watched(after,
            if CompletedTick(w.hub, event) then w.hub.now else w.lastTick,
            map e | e in after.environments ::
              if Added(w.hub, after, e) || Configures(event, e) || e !in w.since then w.hub.now else w.since[e])
  }

  ghost function WatchRun(w: Watched, events: seq<Event>): Watched
    decreases |events|
  {
    if events == [] then w else WatchRun(Watch(w, events[0]), events[1..])
  }

  function Patience(settings: Settings): nat
  {
    LockTtl + 60 * settings.intervalMinutes
  }

  /** What bounds the wait of an environment: since when it waits, until when it may be locked or
      synchronized, and that the last completed cycle came before it was due and free. */
  ghost predicate Bounded(w: Watched)
  {
    var hub := w.hub;
    w.since.Keys == hub.environments.Keys && w.lastTick <= hub.now &&
    (forall id :: id in hub.jobs ==> id < hub.nextJob && hub.jobs[id].enqueuedAt <= hub.now) &&
    (forall e :: e in hub.locks ==> hub.locks[e] <= hub.now + LockTtl) &&
    forall e :: e in hub.environments ==> BoundedFor(w, e)
  }

  ghost predicate BoundedFor(w: Watched, e: string)
    requires e in w.hub.environments && e in w.since
  {
    var hub, since := w.hub, w.since[e];
    since <= hub.now &&
    (e in hub.locks ==> hub.locks[e] <= since + LockTtl) &&
    (hub.environments[e].lastSyncedAt.Some? ==>
      hub.environments[e].lastSyncedAt.value <= hub.now && hub.environments[e].lastSyncedAt.value <= since + LockTtl) &&
    (forall id :: id in hub.jobs && hub.jobs[id].environment == e ==> hub.jobs[id].enqueuedAt <= since) &&
    (hub.environments[e].managed ==> w.lastTick < since + Patience(hub.environments[e]))
  }

  /** The watch can start at any moment: nothing recorded so far lies in the future. */
  lemma WatchCanStart(hub: Hub)
    requires forall id :: id in hub.jobs ==> id < hub.nextJob && hub.jobs[id].enqueuedAt <= hub.now
    requires forall e :: e in hub.locks ==> hub.locks[e] <= hub.now + LockTtl
    requires forall e :: e in hub.environments && hub.environments[e].lastSyncedAt.Some? ==>
      hub.environments[e].lastSyncedAt.value <= hub.now
    ensures Bounded(Watched(hub, hub.now, map e | e in hub.environments :: hub.now))
  {
  }

  lemma ApiKeepsBounded(w: Watched, environment: string, pushOk: bool)
    requires Bounded(w)
    ensures Bounded(Watch(w, ApiSync(environment, pushOk)))
  {
    var hub, later := w.hub, Watch(w, ApiSync(environment, pushOk));
    if later.hub.nextJob > hub.nextJob {
      PushKeepsBounded(w, environment);
    } else {
      assert forall e :: !Added(hub, later.hub, e);
      forall e | e in later.hub.environments ensures BoundedFor(later, e) {
        assert BoundedFor(w, e);
      }
    }
  }

  lemma PushKeepsBounded(w: Watched, environment: string)
    requires Bounded(w) && environment in w.hub.environments && w.hub.environments[environment].managed &&
      !Held(w.hub, environment)
    ensures Bounded(Watch(w, ApiSync(environment, true)))
  {
    var hub, later := w.hub, Watch(w, ApiSync(environment, true));
    assert later.hub == Pushed(hub, environment);
    assert hub.nextJob in later.hub.jobs && later.hub.jobs[hub.nextJob].environment == environment;
    assert Added(hub, later.hub, environment);
    assert forall e :: e != environment ==> !Added(hub, later.hub, e);
    forall e | e in later.hub.environments ensures BoundedFor(later, e) {
      assert BoundedFor(w, e);
    }
  }

  /** The end of a run adds no job and changes one environment. */
  lemma FinishFrame(hub: Hub, job: nat, released: bool)
    ensures var after := Step(hub, Finish(job, released));
      after.now == hub.now && after.nextJob == hub.nextJob && after.environments.Keys == hub.environments.Keys &&
      (forall e :: !Added(hub, after, e)) &&
      (forall id :: id in after.jobs ==> id in hub.jobs && after.jobs[id] == hub.jobs[id]) &&
      (forall e :: e in after.locks ==> e in hub.locks && after.locks[e] == hub.locks[e])
  {
  }

  /** Jobs and locks only went away, and the environment is as before or synchronized just now. */
  ghost predicate Quieter(a: Hub, b: Hub, e: string)
    requires e in a.environments
  {
    b.now == a.now && e in b.environments &&
    (forall id :: id in b.jobs ==>
      id in a.jobs && b.jobs[id].environment == a.jobs[id].environment &&
      b.jobs[id].enqueuedAt == a.jobs[id].enqueuedAt) &&
    (e in b.locks ==> e in a.locks && b.locks[e] == a.locks[e]) &&
    (b.environments[e] == a.environments[e] ||
      (b.environments[e] == a.environments[e].(lastSyncedAt := Some(a.now)) &&
       exists id :: id in a.jobs && a.jobs[id].environment == e))
  }

  lemma QuieterKeepsFor(w: Watched, later: Watched, e: string)
    requires Bounded(w) && Punctual(w.hub) && e in w.hub.environments && Quieter(w.hub, later.hub, e)
    requires later.lastTick == w.lastTick && e in later.since && later.since[e] == w.since[e]
    ensures BoundedFor(later, e)
  {
    assert BoundedFor(w, e);
  }

  lemma FinishKeepsFor(w: Watched, job: nat, released: bool, e: string)
    requires Bounded(w) && Punctual(w.hub) && e in w.hub.environments
    ensures e in Watch(w, Finish(job, released)).since && BoundedFor(Watch(w, Finish(job, released)), e)
  {
    FinishFrame(w.hub, job, released);
    QuieterKeepsFor(w, Watch(w, Finish(job, released)), e);
  }

  lemma FinishKeepsBounded(w: Watched, job: nat, released: bool)
    requires Bounded(w) && Punctual(w.hub)
    ensures Bounded(Watch(w, Finish(job, released)))
  {
    FinishFrame(w.hub, job, released);
    forall e | e in w.hub.environments ensures BoundedFor(Watch(w, Finish(job, released)), e) {
      FinishKeepsFor(w, job, released, e);
    }
  }

  lemma ConfigureKeepsBounded(w: Watched, event: Event)
    requires Bounded(w) && (event.Configure? || event.Remove? || event.Advance?)
    ensures Bounded(Watch(w, event))
  {
    var later := Watch(w, event);
    assert forall e :: !Added(w.hub, later.hub, e);
    forall e | e in later.hub.environments ensures BoundedFor(later, e) {
      if e in w.hub.environments { assert BoundedFor(w, e); }
    }
  }

  lemma JobFrame(hub: Hub, event: Event)
    requires event.Start? || event.Die?
    ensures var after := Step(hub, event);
      after == hub.(jobs := after.jobs) && (forall e :: !Added(hub, after, e)) &&
      forall id :: id in after.jobs ==>
        id in hub.jobs && after.jobs[id].environment == hub.jobs[id].environment &&
        after.jobs[id].enqueuedAt == hub.jobs[id].enqueuedAt
  {
  }

  lemma JobKeepsBounded(w: Watched, event: Event)
    requires Bounded(w) && Punctual(w.hub) && (event.Start? || event.Die?)
    ensures Bounded(Watch(w, event))
  {
    JobFrame(w.hub, event);
    forall e | e in w.hub.environments ensures BoundedFor(Watch(w, event), e) {
      QuieterKeepsFor(w, Watch(w, event), e);
    }
  }

  /** An environment that has waited for its whole patience is tried by the next cycle. */
  lemma OverdueIsTried(w: Watched, e: string)
    requires Bounded(w) && e in w.hub.environments && w.hub.environments[e].managed
    ensures w.hub.now >= w.since[e] + Patience(w.hub.environments[e]) ==> Tries(w.hub, e)
  {
    assert BoundedFor(w, e);
  }

  lemma TickKeepsBounded(w: Watched, order: seq<string>, pushes: string -> Push)
    requires Bounded(w)
    ensures Bounded(Watch(w, Tick(order, pushes)))
  {
    var event := Tick(order, pushes);
    var hub, after, later := w.hub, EnqueueDue(w.hub, order, pushes), Watch(w, event);
    CycleFrame(hub, order, pushes);
    if Completes(hub, order, pushes) { CycleIsExact(hub, order, pushes); }
    forall e | e in after.environments ensures BoundedFor(later, e) {
      assert BoundedFor(w, e);
      if hub.environments[e].managed { OverdueIsTried(w, e); }
    }
    forall e | e in after.locks ensures after.locks[e] <= after.now + LockTtl {
    }
  }

  lemma {:induction false} StepKeepsBounded(w: Watched, event: Event)
    requires Bounded(w) && Punctual(w.hub)
    ensures Bounded(Watch(w, event))
  {
    match event
    case ApiSync(environment, pushOk) => ApiKeepsBounded(w, environment, pushOk);
    case Tick(order, pushes) => TickKeepsBounded(w, order, pushes);
    case Finish(job, released) => FinishKeepsBounded(w, job, released);
    case Start(_, _) => JobKeepsBounded(w, event);
    case Die(_) => JobKeepsBounded(w, event);
    case _ => ConfigureKeepsBounded(w, event);
  }

  lemma {:induction false} RunKeepsBounded(w: Watched, events: seq<Event>)
    requires Bounded(w) && PunctualRun(w.hub, events)
    ensures Bounded(WatchRun(w, events)) && WatchRun(w, events).hub == Run(w.hub, events)
    decreases |events|
  {
    if events != [] {
      StepKeepsBounded(w, events[0]);
      RunKeepsBounded(Watch(w, events[0]), events[1..]);
    }
  }

  /** Some event of the run adds a job for the environment. */
  predicate Enqueues(hub: Hub, events: seq<Event>, environment: string)
    decreases |events|
  {
    events != [] &&
    (Added(hub, Step(hub, events[0]), environment) || Enqueues(Step(hub, events[0]), events[1..], environment))
  }

  /** The environment stays registered and nobody changes its settings. */
  predicate LeftAlone(events: seq<Event>, environment: string)
  {
    forall i :: 0 <= i < |events| ==> !Changes(events[i], environment)
  }

  predicate Changes(event: Event, environment: string)
  {
    Configures(event, environment) || (event.Remove? && event.environment == environment)
  }

  lemma {:induction false} NoEnqueueKeepsSince(w: Watched, events: seq<Event>, environment: string)
    requires Bounded(w) && PunctualRun(w.hub, events) && environment in w.since && LeftAlone(events, environment)
    requires !Enqueues(w.hub, events, environment)
    ensures environment in WatchRun(w, events).since && WatchRun(w, events).since[environment] == w.since[environment]
    ensures environment in WatchRun(w, events).hub.environments
    ensures WatchRun(w, events).hub.environments[environment].managed == w.hub.environments[environment].managed
    ensures WatchRun(w, events).hub.environments[environment].intervalMinutes ==
      w.hub.environments[environment].intervalMinutes
    decreases |events|
  {
    if events != [] {
      StepKeepsBounded(w, events[0]);
      SettingsKept(w.hub, events[0], environment);
      NoEnqueueKeepsSince(Watch(w, events[0]), events[1..], environment);
    }
  }

  lemma SettingsKept(hub: Hub, event: Event, environment: string)
    requires environment in hub.environments && !Changes(event, environment)
    requires forall id :: id in hub.jobs ==> id < hub.nextJob
    ensures environment in Step(hub, event).environments
    ensures Step(hub, event).environments[environment].managed == hub.environments[environment].managed
    ensures Step(hub, event).environments[environment].intervalMinutes == hub.environments[environment].intervalMinutes
  {
    if event.Tick? { CycleFrame(hub, event.order, event.pushes); }
  }

  lemma WaitIsBounded(w: Watched, environment: string, period: nat)
    requires Bounded(w) && environment in w.hub.environments && w.hub.environments[environment].managed
    requires w.hub.now <= w.lastTick + period
    ensures w.hub.now < w.since[environment] + Patience(w.hub.environments[environment]) + period
  {
  }

  /** Main result: while every job ends or dies within 900 seconds of its enqueue, a managed
      environment is enqueued in every window of 900 seconds, its interval and the longest time
      between completed cycles, even when workers die holding its lock. */
  lemma {:induction false} BoundedStaleness(w: Watched, events: seq<Event>, environment: string, period: nat)
    requires Bounded(w) && PunctualRun(w.hub, events) && LeftAlone(events, environment)
    requires environment in w.hub.environments && w.hub.environments[environment].managed
    requires var later := WatchRun(w, events);
      later.hub.now <= later.lastTick + period &&
      later.hub.now - w.hub.now >= Patience(w.hub.environments[environment]) + period
    ensures Enqueues(w.hub, events, environment)
  {
    RunKeepsBounded(w, events);
    assert BoundedFor(w, environment);
    if !Enqueues(w.hub, events, environment) {
      NoEnqueueKeepsSince(w, events, environment);
      WaitIsBounded(WatchRun(w, events), environment, period);
    }
  }
}
