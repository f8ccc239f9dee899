/**
 * The Agenda job collection as used by backend/src/lib/agenda.js: jobs are
 * records with a name, and the cleanup job is the one named
 * "cleanup old chats". Cron strings are opaque; the next run time a job
 * gets is supplied by the caller.
 */
module Scheduler {
  import opened Outcomes
  import opened Seqs
  import opened Records
  import opened Tables
  import opened Retention
  import opened Cleanup

  /** The name every cleanup job is defined and queried under. */
  const CleanupJobName := "cleanup old chats"

  /** The interval `startAgenda` seeds: daily at midnight. */
  const DefaultSchedule := "0 0 * * *"

  /** What `startAgenda` throws when `DATABASE_URL` is not set. */
  const MissingDatabaseUrl := "DATABASE_URL environment variable is not defined."

  /** A job made by `agenda.every` repeats on its interval; one made by `agenda.now` runs once. */
  datatype JobKind = Recurring(interval: string) | Once

  /** A stored job; the run times are `null` until the scheduler sets them. */
  datatype Job = Job(
    id: nat,
    name: string,
    kind: JobKind,
    nextRunAt: Option<Time>,
    lastRunAt: Option<Time>,
    lastFinishedAt: Option<Time>)

  /** Query selector `{ name: name }` on jobs. */
  function HasName(name: string): (p: Job -> bool)
    ensures forall j :: p(j) <==> j.name == name
  {
    (j: Job) => j.name == name
  }

  /** `agenda.jobs({ name })`: the jobs with that name, in collection order. */
  function Named(js: seq<Job>, name: string): (r: seq<Job>)
    ensures forall j :: j in r <==> j in js && j.name == name
  {
    Filter(js, HasName(name))
  }

  /** `agenda.cancel({ name })`: the collection without the jobs of that name. */
  function Cancelled(js: seq<Job>, name: string): (r: seq<Job>)
    ensures forall j :: j in r <==> j in js && j.name != name
  {
    Filter(js, Not(HasName(name)))
  }

  /** After a cancel no job of that name is left. */
  lemma CancelLeavesNone(js: seq<Job>, name: string)
    ensures Named(Cancelled(js, name), name) == []
  {
    FilterNone(Cancelled(js, name), HasName(name));
  }

  /** Cancelling the name and then adding one job of it leaves exactly that job under the name. */
  lemma CancelThenAdd(js: seq<Job>, job: Job)
    ensures Named(Cancelled(js, job.name) + [job], job.name) == [job]
  {
    CancelLeavesNone(js, job.name);
    FilterSnoc(Cancelled(js, job.name), job, HasName(job.name));
  }

  /** A cancel keeps every job of another name, and only those. */
  lemma CancelKeepsOthers(js: seq<Job>, name: string, other: string)
    requires other != name
    ensures Named(Cancelled(js, name), other) == Named(js, other)
  {
    FilterFilter(js, Not(HasName(name)), HasName(other));
    FilterExt(js, Both(Not(HasName(name)), HasName(other)), HasName(other));
  }

  /** The collection `startAgenda` leaves: `job` added exactly when none of its name exists. */
  function Seeded(js: seq<Job>, job: Job): (r: seq<Job>)
    ensures Named(js, job.name) == [] ==> r == js + [job]
    ensures Named(js, job.name) != [] ==> r == js
  {
    if Named(js, job.name) == [] then js + [job] else js
  }

  /**
   * Seeding is idempotent: a second `startAgenda` finds the job the first
   * one added (or the one that was already there) and adds nothing.
   */
  lemma SeedTwice(js: seq<Job>, first: Job, second: Job)
    requires second.name == first.name
    ensures Seeded(Seeded(js, first), second) == Seeded(js, first)
  {
    if Named(js, first.name) == [] {
      FilterSnoc(js, first, HasName(first.name));
    }
  }

  /** Starting from no cleanup job, seeding (any number of times) leaves exactly one. */
  lemma SeedLeavesOne(js: seq<Job>, job: Job)
    requires Named(js, job.name) == []
    ensures Named(Seeded(js, job), job.name) == [job]
  {
    FilterSnoc(js, job, HasName(job.name));
  }

  /** Seeding over an existing job of the name leaves that job, and its interval, untouched. */
  lemma SeedKeepsExisting(js: seq<Job>, job: Job, existing: Job)
    requires existing in js && existing.name == job.name
    ensures Seeded(js, job) == js
    ensures existing in Named(Seeded(js, job), job.name)
  {
    assert existing in Named(js, job.name);
  }

  /**
   * The Agenda collection. Job ids come from `nextId`, so every stored id is
   * below it and a new job's id is fresh.
   */
  class JobTable {
    var jobs: seq<Job>
    var nextId: nat

    ghost predicate Valid()
      reads this
    {
      forall j :: j in jobs ==> j.id < nextId
    }

    constructor ()
      ensures Valid() && jobs == [] && nextId == 0
    {
      jobs, nextId := [], 0;
    }

    /** `agenda.jobs({ name })`; `fault` is the error the query throws, if any. */
    method Jobs(name: string, fault: Fault) returns (r: Result<seq<Job>>)
      ensures fault.Throws? ==> r == Err(fault.message)
      ensures fault.NoFault? ==> r == Ok(Named(jobs, name))
    {
      if fault.Throws? {
        return Err(fault.message);
      }
      r := Ok(Filter(jobs, HasName(name)));
    }

    /** `agenda.every(interval, name)`: stores a new recurring job, or throws and stores nothing. */
    method Every(interval: string, name: string, nextRunAt: Option<Time>, fault: Fault) returns (r: Result<Job>)
      requires Valid()
      modifies this
      ensures Valid()
      ensures fault.Throws? ==> r == Err(fault.message) && jobs == old(jobs) && nextId == old(nextId)
      ensures fault.NoFault? ==>
        && r == Ok(Job(old(nextId), name, Recurring(interval), nextRunAt, None, None))
        && jobs == old(jobs) + [r.value]
        && nextId == old(nextId) + 1
    {
      if fault.Throws? {
        return Err(fault.message);
      }
      var job := Job(nextId, name, Recurring(interval), nextRunAt, None, None);
      jobs := jobs + [job];
      nextId := nextId + 1;
      r := Ok(job);
    }

    /** `agenda.now(name)`: stores a one-off job due at `at`, or throws and stores nothing. */
    method Now(name: string, at: Time, fault: Fault) returns (r: Result<Job>)
      requires Valid()
      modifies this
      ensures Valid()
      ensures fault.Throws? ==> r == Err(fault.message) && jobs == old(jobs) && nextId == old(nextId)
      ensures fault.NoFault? ==>
        && r == Ok(Job(old(nextId), name, Once, Some(at), None, None))
        && jobs == old(jobs) + [r.value]
        && nextId == old(nextId) + 1
    {
      if fault.Throws? {
        return Err(fault.message);
      }
      var job := Job(nextId, name, Once, Some(at), None, None);
      jobs := jobs + [job];
      nextId := nextId + 1;
      r := Ok(job);
    }

    /** `agenda.cancel({ name })`: removes every job of the name and reports how many, or throws and removes none. */
    method Cancel(name: string, fault: Fault) returns (r: Result<nat>)
      requires Valid()
      modifies this
      ensures Valid() && nextId == old(nextId)
      ensures fault.Throws? ==> r == Err(fault.message) && jobs == old(jobs)
      ensures fault.NoFault? ==> jobs == Cancelled(old(jobs), name) && r == Ok(|old(jobs)| - |jobs|)
    {
      if fault.Throws? {
        return Err(fault.message);
      }
      var before := |jobs|;
      jobs := Filter(jobs, Not(HasName(name)));
      r := Ok(before - |jobs|);
    }
  }

  /** Where `startAgenda`'s store calls throw: the job query and the `every` that seeds. */
  datatype StartFaults = StartFaults(query: Fault, seed: Fault)

  /**
   * `startAgenda`, with the module-load check of `DATABASE_URL` in front:
   * an empty or missing URL throws before anything is scheduled; otherwise
   * the default daily job is added only when no cleanup job exists. The
   * result says whether a job was added.
   */
  method StartAgenda(databaseUrl: string, table: JobTable, nextRunAt: Option<Time>, faults: StartFaults)
    returns (r: Result<bool>)
    requires table.Valid()
    modifies table
    ensures table.Valid()
    ensures databaseUrl == "" ==> r == Err(MissingDatabaseUrl) && table.jobs == old(table.jobs)
    ensures databaseUrl != "" && faults.query.Throws? ==> r == Err(faults.query.message) && table.jobs == old(table.jobs)
    ensures databaseUrl != "" && faults.query.NoFault? && Named(old(table.jobs), CleanupJobName) != [] ==>
      r == Ok(false) && table.jobs == old(table.jobs)
    ensures databaseUrl != "" && faults.query.NoFault? && Named(old(table.jobs), CleanupJobName) == [] ==>
      if faults.seed.Throws? then r == Err(faults.seed.message) && table.jobs == old(table.jobs)
      else
        && r == Ok(true)
        && table.jobs == Seeded(old(table.jobs), Job(old(table.nextId), CleanupJobName, Recurring(DefaultSchedule), nextRunAt, None, None))
  {
    if databaseUrl == "" {
      return Err(MissingDatabaseUrl);
    }
    var found := table.Jobs(CleanupJobName, faults.query);
    if found.Err? {
      return Err(found.error);
    }
    if |found.value| == 0 {
      var added := table.Every(DefaultSchedule, CleanupJobName, nextRunAt, faults.seed);
      if added.Err? {
        return Err(added.error);
      }
      return Ok(true);
    }
    r := Ok(false);
  }

  /**
   * The handler defined for "cleanup old chats": it runs `cleanupOldChats`
   * and hands back its result, or rethrows its error.
   */
  method CleanupJob(db: Database, now: Time, age: int, faults: RunFaults) returns (r: Result<Counts>)
    requires db.Valid()
    modifies db
    ensures db.Valid() && db.nextMessageId == old(db.nextMessageId)
    ensures RunOutcome(old(db.messages), old(db.sessions), db.messages, db.sessions, Cutoff(now, age), faults, r)
  {
    r := CleanupOldChats(db, now, age, faults);
  }
}
