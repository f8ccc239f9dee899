/**
 * The cleanup engine of backend/src/lib/cleanup.js: a read-only preview and
 * the destructive run, as methods over the document store.
 */
module Cleanup {
  import opened Outcomes
  import opened Records
  import opened Tables
  import opened Seqs
  import opened Retention

  /** The object `previewCleanup` resolves to; `cleanupAge` is the configured age in milliseconds. */
  datatype Preview = Preview(
    messagesToDelete: nat,
    sessionsToDelete: nat,
    oldestMessage: Option<Time>,
    oldestSession: Option<Time>,
    cutoffDate: Time,
    cleanupAge: int)

  /** The object `cleanupOldChats` resolves to. */
  datatype Counts = Counts(messages: nat, sessions: nat)

  /**
   * Where the calls of the session loop throw, by session `_id`, with the
   * error message each throws: the `countDocuments` of a session, and its
   * `deleteOne`.
   */
  datatype SweepFaults = SweepFaults(failingCounts: map<string, string>, failingDeletes: map<string, string>)

  /**
   * Where a run's store calls throw: the bulk message delete, the query for
   * idle sessions, and the calls of the session loop.
   */
  datatype RunFaults = RunFaults(purge: Fault, findIdle: Fault, sweep: SweepFaults)

  /** A run in which no store call fails. */
  const NoRunFaults := RunFaults(NoFault, NoFault, SweepFaults(map[], map[]))

  /**
   * `previewCleanup`: counts the expired messages and the idle sessions that own
   * no message now, before anything is deleted, and reports the oldest
   * timestamps. Any store failure is rethrown.
   */
  method PreviewCleanup(db: Database, now: Time, age: int, fault: Fault) returns (r: Result<Preview>)
    ensures fault.Throws? ==> r == Err(fault.message)
    ensures fault.NoFault? ==> r.Ok?
    ensures r.Ok? ==>
      var cutoff := Cutoff(now, age);
      r.value == Preview(
        |Filter(db.messages, Expired(cutoff))|,
        |Filter(Filter(db.sessions, Idle(cutoff)), Unowned(db.messages))|,
        Oldest(Times(db.messages, MessageCreatedAt)),
        Oldest(Times(db.sessions, SessionCreatedAt)),
        cutoff,
        age)
  {
    if fault.Throws? {
      return Err(fault.message);
    }
    var cutoffDate := Cutoff(now, age);
    var ms, ss := db.messages, db.sessions;
    var messagesToDelete := |Filter(ms, Expired(cutoffDate))|;
    var oldSessions := Filter(ss, Idle(cutoffDate));
    var oldestMessage := Oldest(Times(ms, MessageCreatedAt));
    var oldestSession := Oldest(Times(ss, SessionCreatedAt));
    var sessionsToDelete := CountUnowned(oldSessions, ms);
    r := Ok(Preview(messagesToDelete, sessionsToDelete, oldestMessage, oldestSession, cutoffDate, age));
  }

  /** The loop of `previewCleanup`: how many of `oldSessions` own no message in `ms`. */
  method CountUnowned(oldSessions: seq<Session>, ms: seq<Message>) returns (n: nat)
    ensures n == |Filter(oldSessions, Unowned(ms))|
  {
    n := 0;
    for i := 0 to |oldSessions|
      invariant n == |Filter(oldSessions[..i], Unowned(ms))|
    {
      FilterPrefix(oldSessions, i, Unowned(ms));
      var messageCount := CountOwned(ms, oldSessions[i].id);
      assert Unowned(ms)(oldSessions[i]) <==> messageCount == 0;
      if messageCount == 0 {
        n := n + 1;
      }
    }
    assert oldSessions[..|oldSessions|] == oldSessions;
  }

  /**
   * The contract of one run from tables (ms0, ss0) to tables (ms1, ss1):
   * the purge happens in full or not at all; the sweep deletes, in table
   * order, each idle session owning no surviving message, and the first
   * failing `countDocuments` or `deleteOne` aborts the run with the
   * deletions made so far kept.
   */
  ghost predicate RunOutcome(ms0: seq<Message>, ss0: seq<Session>, ms1: seq<Message>, ss1: seq<Session>,
                             cutoff: Time, faults: RunFaults, r: Result<Counts>)
  {
    && (faults.purge.Throws? ==> r == Err(faults.purge.message) && ms1 == ms0 && ss1 == ss0)
    && (faults.purge.NoFault? ==> ms1 == Purged(ms0, cutoff))
    && (faults.purge.NoFault? && faults.findIdle.Throws? ==> r == Err(faults.findIdle.message) && ss1 == ss0)
    && (r.Ok? <==>
          && faults.purge.NoFault? && faults.findIdle.NoFault?
          && forall s :: s in ss0 && Idle(cutoff)(s) ==> !StepFails(s, ms1, faults.sweep))
    && (r.Ok? ==> ss1 == Swept(ss0, ms1, cutoff) && r.value == Counts(|ms0| - |ms1|, |ss0| - |ss1|))
    && (faults.purge.NoFault? && faults.findIdle.NoFault? && r.Err? ==>
          exists k :: StoppedAt(ss0, ss1, ms1, cutoff, faults.sweep, r.error, k))
    && RunSoFar(ss0, ss1, ms1, cutoff)
  }

  /**
   * `cleanupOldChats`: first bulk-delete the expired messages, then walk the
   * idle sessions and delete each that owns no message any more.
   */
  method CleanupOldChats(db: Database, now: Time, age: int, faults: RunFaults) returns (r: Result<Counts>)
    requires db.Valid()
    modifies db
    ensures db.Valid() && db.nextMessageId == old(db.nextMessageId)
    ensures RunOutcome(old(db.messages), old(db.sessions), db.messages, db.sessions, Cutoff(now, age), faults, r)
  {
    var cutoffDate := Cutoff(now, age);
    if faults.purge.Throws? {
      return Err(faults.purge.message);
    }
    ghost var ms0, ss0 := db.messages, db.sessions;
    var countBefore := |db.messages|;
    var ms := Filter(db.messages, Not(Expired(cutoffDate)));
    db.messages := ms;
    var deletedMessages := countBefore - |ms|;
    PurgeKeepsValid(ms0, ss0, db.nextMessageId, cutoffDate);
    if faults.findIdle.Throws? {
      return Err(faults.findIdle.message);
    }
    var sessions, swept := SweepIdleSessions(db, db.sessions, ms, cutoffDate, faults.sweep);
    SweepKeepsValid(ms, ss0, db.sessions, db.nextMessageId, cutoffDate, faults.sweep, swept);
    if swept.Err? {
      return Err(swept.error);
    }
    SweptCount(ss0, ms, cutoffDate);
    r := Ok(Counts(deletedMessages, swept.value));
  }

  /** Deleting messages keeps the tables consistent. */
  lemma PurgeKeepsValid(ms: seq<Message>, ss: seq<Session>, next: nat, cutoff: Time)
    requires ValidTables(ms, ss, next)
    ensures ValidTables(Purged(ms, cutoff), ss, next)
  {
  }

  /** Whatever the sweep leaves behind is a consistent table. */
  lemma SweepKeepsValid(ms: seq<Message>, ss0: seq<Session>, ss1: seq<Session>, next: nat, cutoff: Time,
                        faults: SweepFaults, r: Result<nat>)
    requires ValidTables(ms, ss0, next)
    requires SweepOutcome(ss0, ss1, ms, cutoff, faults, r)
    ensures ValidTables(ms, ss1, next)
  {
  }

  /**
   * The loop of `cleanupOldChats` over the sessions with `updatedAt < cutoff`:
   * each one's messages are counted with `countDocuments`, and each one that
   * owns no message is deleted with `deleteOne`, and counted. The first of
   * these calls that throws ends the loop with that error.
   * `ss0` is the sessions table when the loop starts and `ms` the messages
   * table, which the loop does not touch; `sessions` is the table it leaves.
   */
  method SweepIdleSessions(db: Database, ss0: seq<Session>, ms: seq<Message>, cutoff: Time,
                           faults: SweepFaults)
    returns (sessions: seq<Session>, r: Result<nat>)
    requires UniqueKeys(ss0) && db.sessions == ss0
    modifies db`sessions
    ensures SweepOutcome(ss0, sessions, ms, cutoff, faults, r)
    ensures db.sessions == sessions
  {
    var oldSessions := Filter(ss0, Idle(cutoff));
    var deletedSessionsCount := 0;
    ghost var gone: set<string> := {};
    sessions := ss0;
    SweepStart(ss0, ms, cutoff, faults, oldSessions);
    for i := 0 to |oldSessions|
      invariant SweepInvariant(ss0, sessions, ms, cutoff, faults, gone, oldSessions, i, deletedSessionsCount)
      invariant db.sessions == sessions
    {
      var sessionId := oldSessions[i].id;
      if sessionId in faults.failingCounts {
        r := Err(faults.failingCounts[sessionId]);
        SweepExit(ss0, sessions, ms, cutoff, faults, gone, oldSessions, i, deletedSessionsCount, r);
        return;
      }
      var messageCount := CountOwned(ms, sessionId);
      if messageCount == 0 {
        if sessionId in faults.failingDeletes {
          r := Err(faults.failingDeletes[sessionId]);
          SweepExit(ss0, sessions, ms, cutoff, faults, gone, oldSessions, i, deletedSessionsCount, r);
          return;
        }
        SweepDelete(ss0, sessions, ms, cutoff, faults, gone, oldSessions, i, deletedSessionsCount);
        sessions := Filter(sessions, NotIdIn({sessionId}));
        db.sessions := sessions;
        gone := gone + {sessionId};
        deletedSessionsCount := deletedSessionsCount + 1;
      } else {
        SweepSkip(ss0, sessions, ms, cutoff, faults, gone, oldSessions, i, deletedSessionsCount);
      }
    }
    r := Ok(deletedSessionsCount);
    SweepExit(ss0, sessions, ms, cutoff, faults, gone, oldSessions, |oldSessions|, deletedSessionsCount, r);
  }


  /** What holds after the sweep has looked at the first `i` idle sessions and deleted `count` of them. */
  ghost predicate SweepInvariant(ss0: seq<Session>, ss: seq<Session>, ms: seq<Message>, cutoff: Time,
                                 faults: SweepFaults, gone: set<string>,
                                 oldSessions: seq<Session>, i: nat, count: nat)
  {
    && oldSessions == Filter(ss0, Idle(cutoff)) && i <= |oldSessions|
    && DoneSoFar(oldSessions, ms, i, count, gone)
    && ss == Filter(ss0, NotIdIn(gone))
    && forall k :: 0 <= k < i ==> !StepFails(oldSessions[k], ms, faults)
  }

  /** Of the first `i` idle sessions, the ones owning no message were deleted (by `_id`) and counted. */
  ghost predicate DoneSoFar(oldSessions: seq<Session>, ms: seq<Message>, i: nat, count: nat, gone: set<string>)
    requires i <= |oldSessions|
  {
    var done := Filter(oldSessions[..i], Unowned(ms));
    count == |done| && gone == IdSet(done)
  }

  /** The sweep starts with nothing looked at and nothing deleted. */
  lemma SweepStart(ss0: seq<Session>, ms: seq<Message>, cutoff: Time, faults: SweepFaults,
                   oldSessions: seq<Session>)
    requires oldSessions == Filter(ss0, Idle(cutoff))
    ensures SweepInvariant(ss0, ss0, ms, cutoff, faults, {}, oldSessions, 0, 0)
  {
    FilterAll(ss0, NotIdIn({}));
    assert oldSessions[..0] == [];
  }

  /** Idle session `i` owns no message and its `deleteOne` succeeds: it is deleted and counted. */
  lemma SweepDelete(ss0: seq<Session>, ss: seq<Session>, ms: seq<Message>, cutoff: Time,
                    faults: SweepFaults, gone: set<string>,
                    oldSessions: seq<Session>, i: nat, count: nat)
    requires SweepInvariant(ss0, ss, ms, cutoff, faults, gone, oldSessions, i, count)
    requires i < |oldSessions|
    requires Unowned(ms)(oldSessions[i]) && !StepFails(oldSessions[i], ms, faults)
    ensures SweepInvariant(ss0, Filter(ss, NotIdIn({oldSessions[i].id})), ms, cutoff, faults,
                           gone + {oldSessions[i].id}, oldSessions, i + 1, count + 1)
  {
    var s := oldSessions[i];
    FilterPrefix(oldSessions, i, Unowned(ms));
    var prefix := Filter(oldSessions[..i], Unowned(ms));
    assert Filter(oldSessions[..i + 1], Unowned(ms)) == prefix + [s];
    DeleteOneMore(ss0, gone, s.id);
    IdSetSnoc(prefix, s);
  }

  /** Idle session `i` still owns a message: it is kept. */
  lemma SweepSkip(ss0: seq<Session>, ss: seq<Session>, ms: seq<Message>, cutoff: Time,
                  faults: SweepFaults, gone: set<string>,
                  oldSessions: seq<Session>, i: nat, count: nat)
    requires SweepInvariant(ss0, ss, ms, cutoff, faults, gone, oldSessions, i, count)
    requires i < |oldSessions|
    requires !Unowned(ms)(oldSessions[i]) && !StepFails(oldSessions[i], ms, faults)
    ensures SweepInvariant(ss0, ss, ms, cutoff, faults, gone, oldSessions, i + 1, count)
  {
    FilterPrefix(oldSessions, i, Unowned(ms));
    assert Filter(oldSessions[..i + 1], Unowned(ms)) == Filter(oldSessions[..i], Unowned(ms));
  }

  /**
   * The contract of the sweep from sessions `ss0` to `ss1`: it succeeds iff no
   * idle session's `countDocuments`, and no eligible session's `deleteOne`,
   * throws; then it has deleted exactly the eligible sessions and counted
   * them. Otherwise it stops where the first call throws. In every case it
   * only deletes, and never an ineligible session.
   */
  ghost predicate SweepOutcome(ss0: seq<Session>, ss1: seq<Session>, ms: seq<Message>, cutoff: Time,
                               faults: SweepFaults, r: Result<nat>)
  {
    && (r.Ok? <==> forall s :: s in ss0 && Idle(cutoff)(s) ==> !StepFails(s, ms, faults))
    && (r.Ok? ==> ss1 == Swept(ss0, ms, cutoff))
    && (r.Ok? ==> r.value == |Filter(Filter(ss0, Idle(cutoff)), Unowned(ms))|)
    && (r.Err? ==> exists k :: StoppedAt(ss0, ss1, ms, cutoff, faults, r.error, k))
    && RunSoFar(ss0, ss1, ms, cutoff)
    && UniqueKeys(ss1)
  }

  /**
   * The loop throws at idle session `s`: its `countDocuments` throws, or it
   * owns no message and its `deleteOne` throws.
   */
  ghost predicate StepFails(s: Session, ms: seq<Message>, faults: SweepFaults)
  {
    s.id in faults.failingCounts || (Unowned(ms)(s) && s.id in faults.failingDeletes)
  }

  /** The error the loop rethrows there: the count's, which runs first, otherwise the delete's. */
  ghost function StepError(s: Session, ms: seq<Message>, faults: SweepFaults): string
    requires StepFails(s, ms, faults)
  {
    if s.id in faults.failingCounts then faults.failingCounts[s.id] else faults.failingDeletes[s.id]
  }

  /** Idle session `k` (in table order) is the first one at which the loop throws. */
  ghost predicate FirstFailure(idle: seq<Session>, ms: seq<Message>, faults: SweepFaults, k: int)
  {
    && 0 <= k < |idle| && StepFails(idle[k], ms, faults)
    && forall j :: 0 <= j < k ==> !StepFails(idle[j], ms, faults)
  }

  /**
   * The sweep stopped at idle session `k`: the loop first threw there, the
   * run reports that call's error, and exactly the idle sessions owning no
   * message before it are gone.
   */
  ghost predicate StoppedAt(ss0: seq<Session>, ss1: seq<Session>, ms: seq<Message>, cutoff: Time,
                            faults: SweepFaults, error: string, k: int)
  {
    var idle := Filter(ss0, Idle(cutoff));
    && FirstFailure(idle, ms, faults, k)
    && error == StepError(idle[k], ms, faults)
    && ss1 == Filter(ss0, NotIdIn(IdSet(Filter(idle[..k], Unowned(ms)))))
  }

  /** Where the sweep loop stops, by finishing or at the first call that throws, its contract holds. */
  lemma SweepExit(ss0: seq<Session>, ss: seq<Session>, ms: seq<Message>, cutoff: Time,
                  faults: SweepFaults, gone: set<string>, oldSessions: seq<Session>, i: nat,
                  count: nat, r: Result<nat>)
    requires UniqueKeys(ss0)
    requires SweepInvariant(ss0, ss, ms, cutoff, faults, gone, oldSessions, i, count)
    requires r.Ok? ==> i == |oldSessions| && r.value == count
    requires r.Err? ==> i < |oldSessions| && StepFails(oldSessions[i], ms, faults)
                        && r.error == StepError(oldSessions[i], ms, faults)
    ensures SweepOutcome(ss0, ss, ms, cutoff, faults, r)
  {
    RunSoFarStep(ss0, ss, ms, cutoff, gone, oldSessions, i);
    FilterKeepsUniqueKeys(ss0, NotIdIn(gone));
    if r.Ok? {
      assert oldSessions[..i] == oldSessions;
      SweepDone(ss0, ms, cutoff, oldSessions);
      forall s | s in ss0 && Idle(cutoff)(s)
        ensures !StepFails(s, ms, faults)
      {
        assert s in oldSessions;
      }
    } else {
      assert oldSessions[i] in oldSessions;
      assert StoppedAt(ss0, ss, ms, cutoff, faults, r.error, i);
    }
  }

  /** The sessions left part-way through the sweep: a subset of the old table that keeps every ineligible one. */
  ghost predicate RunSoFar(ss0: seq<Session>, ss: seq<Session>, ms: seq<Message>, cutoff: Time)
  {
    && (forall s :: s in ss ==> s in ss0)
    && (forall s :: s in ss0 && !Eligible(cutoff, ms)(s) ==> s in ss)
  }

  /** The part-way state stays within the old table and keeps every ineligible session. */
  lemma RunSoFarStep(ss0: seq<Session>, ss: seq<Session>, ms: seq<Message>, cutoff: Time,
                     gone: set<string>, oldSessions: seq<Session>, i: nat)
    requires UniqueKeys(ss0)
    requires oldSessions == Filter(ss0, Idle(cutoff)) && i <= |oldSessions|
    requires gone == IdSet(Filter(oldSessions[..i], Unowned(ms)))
    requires ss == Filter(ss0, NotIdIn(gone))
    ensures RunSoFar(ss0, ss, ms, cutoff)
  {
    var sub := Filter(oldSessions[..i], Unowned(ms));
    forall s | s in ss0 && !Eligible(cutoff, ms)(s)
      ensures s in ss
    {
      assert forall t :: t in oldSessions[..i] ==> t in oldSessions;
      DeletedById(ss0, sub, s);
    }
  }

  /** At the end of the sweep, deleting by `_id` the idle sessions owning nothing is the sweep. */
  lemma SweepDone(ss0: seq<Session>, ms: seq<Message>, cutoff: Time, oldSessions: seq<Session>)
    requires UniqueKeys(ss0)
    requires oldSessions == Filter(ss0, Idle(cutoff))
    ensures Filter(ss0, NotIdIn(IdSet(Filter(oldSessions, Unowned(ms))))) == Swept(ss0, ms, cutoff)
  {
    var sub := Filter(oldSessions, Unowned(ms));
    forall s | s in ss0
      ensures NotIdIn(IdSet(sub))(s) == Not(Eligible(cutoff, ms))(s)
    {
      DeletedById(ss0, sub, s);
    }
    FilterExt(ss0, NotIdIn(IdSet(sub)), Not(Eligible(cutoff, ms)));
  }

  /**
   * A sweep that stopped at idle session `k` has deleted the idle sessions
   * owning no message before it, and kept session `k` and every idle
   * session after it.
   */
  lemma StoppedSweepKeepsTheRest(ss0: seq<Session>, ss1: seq<Session>, ms: seq<Message>, cutoff: Time,
                                 faults: SweepFaults, error: string, k: int)
    requires UniqueKeys(ss0)
    requires StoppedAt(ss0, ss1, ms, cutoff, faults, error, k)
    ensures var idle := Filter(ss0, Idle(cutoff));
      forall j :: 0 <= j < |idle| ==> (idle[j] in ss1 <==> k <= j || !Unowned(ms)(idle[j]))
  {
    var idle := Filter(ss0, Idle(cutoff));
    FilterKeepsUniqueKeys(ss0, Idle(cutoff));
    var sub := Filter(idle[..k], Unowned(ms));
    assert forall t :: t in idle[..k] ==> t in idle;
    forall j | 0 <= j < |idle|
      ensures idle[j] in ss1 <==> k <= j || !Unowned(ms)(idle[j])
    {
      assert idle[j] in idle;
      DeletedById(ss0, sub, idle[j]);
      if k <= j {
        assert forall m :: 0 <= m < k ==> idle[..k][m].id != idle[j].id;
      } else {
        assert idle[..k][j] == idle[j];
      }
    }
  }

  /**
   * A failing `countDocuments` aborts the run at an idle session whatever
   * messages it owns, also where no `deleteOne` would be reached; the
   * session stays.
   */
  lemma CountFailureAborts(ms0: seq<Message>, s: Session, ms1: seq<Message>, ss1: seq<Session>, cutoff: Time,
                           faults: RunFaults, r: Result<Counts>)
    requires faults.purge.NoFault? && faults.findIdle.NoFault?
    requires s.updatedAt < cutoff && s.id in faults.sweep.failingCounts
    requires RunOutcome(ms0, [s], ms1, ss1, cutoff, faults, r)
    ensures r == Err(faults.sweep.failingCounts[s.id]) && ss1 == [s]
  {
    assert r.Err? by {
      assert s in [s] && Idle(cutoff)(s) && StepFails(s, ms1, faults.sweep);
    }
    var k :| StoppedAt([s], ss1, ms1, cutoff, faults.sweep, r.error, k);
    StoppedAtOnly(s, ss1, ms1, cutoff, faults.sweep, r.error, k);
  }

  /** A sweep of a one-session table can only have stopped at that session, and it kept it. */
  lemma StoppedAtOnly(s: Session, ss1: seq<Session>, ms: seq<Message>, cutoff: Time,
                      faults: SweepFaults, error: string, k: int)
    requires s.updatedAt < cutoff
    requires StoppedAt([s], ss1, ms, cutoff, faults, error, k)
    ensures k == 0 && ss1 == [s] && error == StepError(s, ms, faults)
  {
    FilterAll([s], Idle(cutoff));
    assert Filter([s], Idle(cutoff))[..k] == [];
    assert Filter([], Unowned(ms)) == [];
    FilterAll([s], NotIdIn({}));
  }

  /**
   * Two fault-free runs with the same cutoff: the second deletes nothing and
   * reports zero for both counts.
   */
  lemma {:induction false} SecondRunDeletesNothing(
    ms0: seq<Message>, ss0: seq<Session>, ms1: seq<Message>, ss1: seq<Session>,
    ms2: seq<Message>, ss2: seq<Session>, cutoff: Time, r1: Result<Counts>, r2: Result<Counts>)
    requires RunOutcome(ms0, ss0, ms1, ss1, cutoff, NoRunFaults, r1)
    requires RunOutcome(ms1, ss1, ms2, ss2, cutoff, NoRunFaults, r2)
    ensures r1.Ok? && r2 == Ok(Counts(0, 0))
    ensures ms2 == ms1 && ss2 == ss1
  {
    PurgeIdempotent(ms0, cutoff);
    SweepIdempotent(ss0, ms1, cutoff);
  }

  /** A fault-free run deletes exactly what the retention policy selects, and reports those numbers. */
  lemma FaultFreeRun(ms0: seq<Message>, ss0: seq<Session>, ms1: seq<Message>, ss1: seq<Session>,
                     cutoff: Time, r: Result<Counts>)
    requires RunOutcome(ms0, ss0, ms1, ss1, cutoff, NoRunFaults, r)
    ensures ms1 == Purged(ms0, cutoff) && ss1 == Swept(ss0, ms1, cutoff)
    ensures r == Ok(Counts(|Filter(ms0, Expired(cutoff))|, |Filter(Filter(ss0, Idle(cutoff)), Unowned(ms1))|))
    ensures r.value.sessions <= |Filter(ss0, Idle(cutoff))|
  {
    PurgedCount(ms0, cutoff);
    SweptCount(ss0, ms1, cutoff);
  }
}
