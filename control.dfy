/**
 * The cleanup control API: the five handlers of
 * backend/src/routes/cleanupRoutes.js (mounted behind the API-key gate) and
 * their unmounted twins in backend/src/controllers/cleanupController.js.
 */
module Control {
  import opened Outcomes
  import opened Seqs
  import opened Records
  import opened Tables
  import opened Retention
  import opened Cleanup
  import opened Scheduler
  import opened Auth

  /** The `status` object of `GET /status`; each time is `null` when there is no job. */
  datatype JobStatus = JobStatus(
    isScheduled: bool,
    nextRun: Option<Time>,
    lastRun: Option<Time>,
    lastFinished: Option<Time>)

  /** The JSON bodies the handlers send. */
  datatype Body =
    | PreviewBody(preview: Preview)                   // { success: true, preview }
    | StatusBody(status: JobStatus)                   // { success: true, status }
    | Done(message: string)                           // { success: true, message }
    | Accepted(message: string, jobId: nat)           // { success: true, message, jobId }
    | Failed(message: string, error: Option<string>)  // { success: false, message [, error] }

  /** An HTTP status and a body. */
  datatype Reply = Reply(status: int, body: Body)

  const ScheduleRequired := "Schedule is required (e.g., \"0 0 * * *\" for daily at midnight)"

  /**
   * The status reported for the jobs of the cleanup name, as evidently
   * intended: the stored run times of the first one, if any. The route as
   * written reads them elsewhere (`StatusAsWritten`).
   */
  function StatusOf(js: seq<Job>): (s: JobStatus)
    ensures s.isScheduled <==> |js| > 0
    ensures js == [] ==> s == JobStatus(false, None, None, None)
    ensures js != [] ==> s == JobStatus(true, js[0].nextRunAt, js[0].lastRunAt, js[0].lastFinishedAt)
  {
    if |js| > 0 then JobStatus(true, js[0].nextRunAt, js[0].lastRunAt, js[0].lastFinishedAt)
    else JobStatus(false, None, None, None)
  }

  /**
   * A time field of the `status` object as it goes over the wire: left out
   * (the value was `undefined`, which `res.json` drops), `null`, or a time.
   */
  datatype SentTime = Missing | SentNull | SentAt(t: Time)

  /** The `status` object as sent. */
  datatype SentStatus = SentStatus(isScheduled: bool, nextRun: SentTime, lastRun: SentTime, lastFinished: SentTime)

  /** How `res.json` sends an optional time that was read correctly: `null` or the time. */
  function Sent(o: Option<Time>): (t: SentTime)
    ensures t != Missing
    ensures o.None? <==> t == SentNull
  {
    if o.None? then SentNull else SentAt(o.value)
  }

  /** The intended status as sent. */
  function SentStatusOf(s: JobStatus): (w: SentStatus)
    ensures w.isScheduled == s.isScheduled
    ensures w.nextRun == Sent(s.nextRun) && w.lastRun == Sent(s.lastRun) && w.lastFinished == Sent(s.lastFinished)
  {
    SentStatus(s.isScheduled, Sent(s.nextRun), Sent(s.lastRun), Sent(s.lastFinished))
  }

  /**
   * The status as the route is written: the run times are read off the
   * Agenda `Job` object itself, whose stored fields live under `attrs`, so
   * with a job they are `undefined` and left out of the reply; without one
   * they are `null`.
   */
  function StatusAsWritten(js: seq<Job>): (s: SentStatus)
    ensures s.isScheduled <==> |js| > 0
    ensures js == [] ==> s.nextRun == SentNull && s.lastRun == SentNull && s.lastFinished == SentNull
    ensures js != [] ==> s.nextRun == Missing && s.lastRun == Missing && s.lastFinished == Missing
  {
    if |js| > 0 then SentStatus(true, Missing, Missing, Missing)
    else SentStatus(false, SentNull, SentNull, SentNull)
  }

  /**
   * The route as written agrees with the intended status exactly when no
   * cleanup job exists: with any job, scheduled or not yet run, it loses all
   * three times.
   */
  lemma StatusAsWrittenLosesTimes(js: seq<Job>)
    ensures StatusAsWritten(js) == SentStatusOf(StatusOf(js)) <==> js == []
  {
    if js != [] {
      assert SentStatusOf(StatusOf(js)).nextRun != Missing;
    }
  }

  /** A scheduled job's next run is reported by the intended status and lost by the route as written. */
  lemma StatusAsWrittenDropsNextRun(js: seq<Job>, t: Time)
    requires js != [] && js[0].nextRunAt == Some(t)
    ensures StatusOf(js).nextRun == Some(t)
    ensures StatusAsWritten(js).nextRun == Missing
  {
  }

  /** The reply of `GET /preview` over tables (ms, ss): the preview, or 500 with the store's error. */
  ghost predicate PreviewReplied(ms: seq<Message>, ss: seq<Session>, now: Time, age: int, fault: Fault, reply: Reply)
  {
    && (fault.Throws? ==> reply == Reply(500, Failed("Failed to get cleanup preview", Some(fault.message))))
    && (fault.NoFault? ==>
          var cutoff := Cutoff(now, age);
          reply == Reply(200, PreviewBody(Preview(
            |Filter(ms, Expired(cutoff))|,
            |Filter(Filter(ss, Idle(cutoff)), Unowned(ms))|,
            Oldest(Times(ms, MessageCreatedAt)),
            Oldest(Times(ss, SessionCreatedAt)),
            cutoff,
            age))))
  }

  /** `GET /preview`. */
  method HandlePreview(db: Database, now: Time, age: int, fault: Fault) returns (reply: Reply)
    ensures PreviewReplied(db.messages, db.sessions, now, age, fault, reply)
  {
    var preview := PreviewCleanup(db, now, age, fault);
    if preview.Err? {
      return Reply(500, Failed("Failed to get cleanup preview", Some(preview.error)));
    }
    reply := Reply(200, PreviewBody(preview.value));
  }

  /** The reply of `GET /status` over jobs `js`: derived from the first job of the cleanup name. */
  ghost predicate StatusReplied(js: seq<Job>, fault: Fault, reply: Reply)
  {
    && (fault.Throws? ==> reply == Reply(500, Failed("Failed to get cleanup status", Some(fault.message))))
    && (fault.NoFault? ==> reply == Reply(200, StatusBody(StatusOf(Named(js, CleanupJobName)))))
  }

  /** `GET /status`. */
  method HandleStatus(table: JobTable, fault: Fault) returns (reply: Reply)
    ensures StatusReplied(table.jobs, fault, reply)
    ensures fault.NoFault? ==>
      (reply.body.status.isScheduled <==> exists j :: j in table.jobs && j.name == CleanupJobName)
  {
    var jobs := table.Jobs(CleanupJobName, fault);
    if jobs.Err? {
      return Reply(500, Failed("Failed to get cleanup status", Some(jobs.error)));
    }
    ghost var named := jobs.value;
    assert named != [] ==> named[0] in named;
    reply := Reply(200, StatusBody(StatusOf(jobs.value)));
  }

  /**
   * `POST /run` from jobs `js0` with next id `id0` to jobs `js1` with next id
   * `id1`: a one-off cleanup job due now is queued, leaving the recurring one
   * in place.
   */
  ghost predicate RunReplied(js0: seq<Job>, id0: nat, js1: seq<Job>, id1: nat, now: Time, fault: Fault, reply: Reply)
  {
    && (fault.Throws? ==>
          reply == Reply(500, Failed("Failed to schedule cleanup", Some(fault.message))) && js1 == js0 && id1 == id0)
    && (fault.NoFault? ==>
          && reply == Reply(202, Accepted("Cleanup job scheduled for immediate execution", id0))
          && js1 == js0 + [Job(id0, CleanupJobName, Once, Some(now), None, None)]
          && id1 == id0 + 1)
  }

  /** `POST /run`. */
  method HandleRun(table: JobTable, now: Time, fault: Fault) returns (reply: Reply)
    requires table.Valid()
    modifies table
    ensures table.Valid()
    ensures RunReplied(old(table.jobs), old(table.nextId), table.jobs, table.nextId, now, fault, reply)
    ensures forall j :: j in old(table.jobs) ==> j in table.jobs
  {
    var job := table.Now(CleanupJobName, now, fault);
    if job.Err? {
      return Reply(500, Failed("Failed to schedule cleanup", Some(job.error)));
    }
    reply := Reply(202, Accepted("Cleanup job scheduled for immediate execution", job.value.id));
  }

  /**
   * `POST /schedule` from jobs `js0` with next id `id0` to jobs `js1` with
   * next id `id1`: a
   * falsy `schedule` is refused with 400 before anything is touched;
   * otherwise every cleanup job is cancelled and one recurring job on the
   * (unvalidated) schedule is added. The two steps are separate: when the
   * add fails, the cancelled jobs stay cancelled.
   */
  ghost predicate ScheduleReplied(js0: seq<Job>, id0: nat, js1: seq<Job>, id1: nat, schedule: string,
                                  nextRunAt: Option<Time>, cancelFault: Fault, addFault: Fault, reply: Reply)
  {
    && (schedule == "" ==> reply == Reply(400, Failed(ScheduleRequired, None)) && js1 == js0 && id1 == id0)
    && (schedule != "" && cancelFault.Throws? ==>
          && reply == Reply(500, Failed("Failed to update cleanup schedule", Some(cancelFault.message)))
          && js1 == js0 && id1 == id0)
    && (schedule != "" && cancelFault.NoFault? && addFault.Throws? ==>
          && reply == Reply(500, Failed("Failed to update cleanup schedule", Some(addFault.message)))
          && js1 == Cancelled(js0, CleanupJobName) && id1 == id0)
    && (schedule != "" && cancelFault.NoFault? && addFault.NoFault? ==>
          && reply == Reply(200, Done("Cleanup schedule updated successfully"))
          && js1 == Cancelled(js0, CleanupJobName) + [Job(id0, CleanupJobName, Recurring(schedule), nextRunAt, None, None)]
          && id1 == id0 + 1)
  }

  /** `POST /schedule`. */
  method HandleSchedule(table: JobTable, schedule: string, nextRunAt: Option<Time>, cancelFault: Fault, addFault: Fault)
    returns (reply: Reply)
    requires table.Valid()
    modifies table
    ensures table.Valid()
    ensures ScheduleReplied(old(table.jobs), old(table.nextId), table.jobs, table.nextId, schedule, nextRunAt,
                            cancelFault, addFault, reply)
  {
    if schedule == "" {
      return Reply(400, Failed(ScheduleRequired, None));
    }
    var removed := table.Cancel(CleanupJobName, cancelFault);
    if removed.Err? {
      return Reply(500, Failed("Failed to update cleanup schedule", Some(removed.error)));
    }
    var added := table.Every(schedule, CleanupJobName, nextRunAt, addFault);
    if added.Err? {
      return Reply(500, Failed("Failed to update cleanup schedule", Some(added.error)));
    }
    reply := Reply(200, Done("Cleanup schedule updated successfully"));
  }

  /** `POST /cancel` from jobs `js0` with next id `id0` to jobs `js1` with next id `id1`: every cleanup job is removed. */
  ghost predicate CancelReplied(js0: seq<Job>, id0: nat, js1: seq<Job>, id1: nat, fault: Fault, reply: Reply)
  {
    && id1 == id0
    && (fault.Throws? ==>
          reply == Reply(500, Failed("Failed to cancel cleanup schedule", Some(fault.message))) && js1 == js0)
    && (fault.NoFault? ==>
          reply == Reply(200, Done("Cleanup schedule cancelled successfully")) && js1 == Cancelled(js0, CleanupJobName))
  }

  /** `POST /cancel`. */
  method HandleCancel(table: JobTable, fault: Fault) returns (reply: Reply)
    requires table.Valid()
    modifies table
    ensures table.Valid()
    ensures CancelReplied(old(table.jobs), old(table.nextId), table.jobs, table.nextId, fault, reply)
  {
    var removed := table.Cancel(CleanupJobName, fault);
    if removed.Err? {
      return Reply(500, Failed("Failed to cancel cleanup schedule", Some(removed.error)));
    }
    reply := Reply(200, Done("Cleanup schedule cancelled successfully"));
  }

  /** A successful schedule leaves exactly one cleanup job, the new recurring one. */
  lemma ScheduleLeavesOne(js: seq<Job>, job: Job)
    requires job.name == CleanupJobName
    ensures Named(Cancelled(js, CleanupJobName) + [job], CleanupJobName) == [job]
    ensures StatusOf(Named(Cancelled(js, CleanupJobName) + [job], CleanupJobName)).isScheduled
  {
    CancelThenAdd(js, job);
  }

  /** After a cancel, the status reports nothing scheduled and no run times. */
  lemma CancelThenStatus(js: seq<Job>)
    ensures StatusOf(Named(Cancelled(js, CleanupJobName), CleanupJobName)) == JobStatus(false, None, None, None)
  {
    CancelLeavesNone(js, CleanupJobName);
  }

  /** Where the stores behind a control request throw. */
  datatype ControlFaults = ControlFaults(read: Fault, cancel: Fault, add: Fault)

  /** The five routes under `/api/cleanup`. */
  datatype Route = PreviewRoute | StatusRoute | RunRoute | ScheduleRoute(schedule: string) | CancelRoute

  /** A request gated by the API key: the cleanup router runs `requireApiKey` before every route. */
  method Dispatch(header: Option<string>, expected: Option<string>, route: Route,
                  db: Database, table: JobTable, now: Time, age: int, nextRunAt: Option<Time>,
                  faults: ControlFaults)
    returns (reply: Reply)
    requires table.Valid()
    modifies table
    ensures table.Valid()
    ensures RequireApiKey(header, expected).Reject? ==>
      reply == Reply(401, Failed(UnauthorizedMessage, None))
      && table.jobs == old(table.jobs) && table.nextId == old(table.nextId)
    ensures route.PreviewRoute? || route.StatusRoute? ==> table.jobs == old(table.jobs) && table.nextId == old(table.nextId)
    ensures RequireApiKey(header, expected).Next? ==>
      match route
      case PreviewRoute => PreviewReplied(db.messages, db.sessions, now, age, faults.read, reply)
      case StatusRoute => StatusReplied(table.jobs, faults.read, reply)
      case RunRoute => RunReplied(old(table.jobs), old(table.nextId), table.jobs, table.nextId, now, faults.add, reply)
      case ScheduleRoute(schedule) =>
        ScheduleReplied(old(table.jobs), old(table.nextId), table.jobs, table.nextId, schedule, nextRunAt,
                        faults.cancel, faults.add, reply)
      case CancelRoute => CancelReplied(old(table.jobs), old(table.nextId), table.jobs, table.nextId, faults.cancel, reply)
  {
    var gate := RequireApiKey(header, expected);
    if gate.Reject? {
      return Reply(gate.reply.status, Failed(gate.reply.message, None));
    }
    match route {
      case PreviewRoute => reply := HandlePreview(db, now, age, faults.read);
      case StatusRoute => reply := HandleStatus(table, faults.read);
      case RunRoute => reply := HandleRun(table, now, faults.add);
      case ScheduleRoute(schedule) => reply := HandleSchedule(table, schedule, nextRunAt, faults.cancel, faults.add);
      case CancelRoute => reply := HandleCancel(table, faults.cancel);
    }
  }
}
