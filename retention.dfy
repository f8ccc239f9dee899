/**
 * The retention policy of backend/src/lib/cleanup.js as pure definitions:
 * the cutoff, which records a run removes, and what a preview counts,
 * with the properties relating them.
 */
module Retention {
  import opened Outcomes
  import opened Records
  import opened Tables
  import opened Seqs

  /** `Date.now() - chatCleanupAge`: records strictly older than this are eligible. */
  function Cutoff(now: Time, age: int): (c: Time)
    ensures c + age == now
    ensures age > 0 ==> c < now
  {
    now - age
  }

  /** For a fixed age, a later run has a strictly later cutoff. */
  lemma CutoffMonotone(now1: Time, now2: Time, age: int)
    requires now1 < now2
    ensures Cutoff(now1, age) < Cutoff(now2, age)
  {
  }

  /** Message selector `{ createdAt: { $lt: cutoff } }`. */
  function Expired(cutoff: Time): (p: Message -> bool)
    ensures forall m :: p(m) <==> m.createdAt < cutoff
  {
    (m: Message) => m.createdAt < cutoff
  }

  /** Session selector `{ updatedAt: { $lt: cutoff } }`. */
  function Idle(cutoff: Time): (p: Session -> bool)
    ensures forall s :: p(s) <==> s.updatedAt < cutoff
  {
    (s: Session) => s.updatedAt < cutoff
  }

  /** A session that owns no message of `ms` (`countDocuments` answered 0). */
  function Unowned(ms: seq<Message>): (p: Session -> bool)
    ensures forall s :: p(s) <==> CountOwned(ms, s.id) == 0
  {
    (s: Session) => CountOwned(ms, s.id) == 0
  }

  /** A session the sweep deletes: idle and owning no message of `ms`. */
  function Eligible(cutoff: Time, ms: seq<Message>): (p: Session -> bool)
    ensures forall s :: p(s) <==> s.updatedAt < cutoff && CountOwned(ms, s.id) == 0
  {
    Both(Idle(cutoff), Unowned(ms))
  }

  /**
   * The message table after `deleteMany({ createdAt: { $lt: cutoff } })`:
   * exactly the messages created at or after the cutoff stay.
   */
  function Purged(ms: seq<Message>, cutoff: Time): (r: seq<Message>)
    ensures forall m {:trigger m in r} :: m in r <==> m in ms && m.createdAt >= cutoff
    ensures |r| <= |ms|
  {
    Filter(ms, Not(Expired(cutoff)))
  }

  /**
   * The sessions table after every eligible session has been deleted: a
   * session stays iff it was updated at or after the cutoff or still owns a
   * message.
   */
  function Swept(ss: seq<Session>, ms: seq<Message>, cutoff: Time): (r: seq<Session>)
    ensures forall s {:trigger s in r} :: s in r <==> s in ss && (s.updatedAt >= cutoff || CountOwned(ms, s.id) > 0)
    ensures |r| <= |ss|
  {
    Filter(ss, Not(Eligible(cutoff, ms)))
  }

  /** A session that still owns a message after the purge survives the sweep, whatever its age. */
  lemma {:induction false} SweepKeepsOwnedSessions(ss: seq<Session>, ms: seq<Message>, cutoff: Time, s: Session, m: Message)
    requires s in ss && m in ms && m.sessionId == s.id
    ensures s in Swept(ss, ms, cutoff)
  {
    assert CountOwned(ms, s.id) != 0;
  }

  /** A session updated at or after the cutoff survives the sweep, whatever it owns. */
  lemma SweepKeepsRecentSessions(ss: seq<Session>, ms: seq<Message>, cutoff: Time)
    ensures forall s :: s in ss && s.updatedAt >= cutoff ==> s in Swept(ss, ms, cutoff)
  {
  }

  /** Records removed by the sweep = idle sessions that own nothing; at most the idle sessions. */
  lemma {:induction false} SweptCount(ss: seq<Session>, ms: seq<Message>, cutoff: Time)
    ensures |ss| - |Swept(ss, ms, cutoff)| == |Filter(Filter(ss, Idle(cutoff)), Unowned(ms))|
    ensures |ss| - |Swept(ss, ms, cutoff)| <= |Filter(ss, Idle(cutoff))|
  {
    FilterFilter(ss, Idle(cutoff), Unowned(ms));
    FilterComplement(ss, Eligible(cutoff, ms));
    assert |Filter(Filter(ss, Idle(cutoff)), Unowned(ms))| <= |Filter(ss, Idle(cutoff))|;
  }

  /** The purge removes as many messages as a preview counts. */
  lemma {:induction false} PurgedCount(ms: seq<Message>, cutoff: Time)
    ensures |ms| - |Purged(ms, cutoff)| == |Filter(ms, Expired(cutoff))|
  {
    FilterComplement(ms, Expired(cutoff));
  }

  /** Purging twice with the same cutoff is purging once. */
  lemma {:induction false} PurgeIdempotent(ms: seq<Message>, cutoff: Time)
    ensures Purged(Purged(ms, cutoff), cutoff) == Purged(ms, cutoff)
  {
    FilterAll(Purged(ms, cutoff), Not(Expired(cutoff)));
  }

  /** After a purge and a sweep, a second sweep with the same cutoff finds nothing. */
  lemma {:induction false} SweepIdempotent(ss: seq<Session>, ms: seq<Message>, cutoff: Time)
    ensures Swept(Swept(ss, ms, cutoff), ms, cutoff) == Swept(ss, ms, cutoff)
  {
    FilterAll(Swept(ss, ms, cutoff), Not(Eligible(cutoff, ms)));
  }

  /**
   * A preview counts the idle sessions owning no message BEFORE the purge;
   * the run counts them AFTER it. Purging only removes messages, so the
   * preview never counts more sessions than the run deletes.
   */
  lemma {:induction false} PreviewUndercountsSessions(ss: seq<Session>, ms: seq<Message>, cutoff: Time)
    ensures |Filter(Filter(ss, Idle(cutoff)), Unowned(ms))|
         <= |Filter(Filter(ss, Idle(cutoff)), Unowned(Purged(ms, cutoff)))|
  {
    var idle := Filter(ss, Idle(cutoff));
    forall s | s in idle && Unowned(ms)(s)
      ensures Unowned(Purged(ms, cutoff))(s)
    {
    }
    FilterWeaker(idle, Unowned(ms), Unowned(Purged(ms, cutoff)));
  }

  /** The idle session whose only old message is purged: the run deletes it, the preview does not count it. */
  lemma PreviewCanUndercount()
    ensures var ms := [Message(0, "hi", "user", "s", 10)];
            var ss := [Session("s", "s", 0, 10)];
            |Filter(Filter(ss, Idle(20)), Unowned(ms))| == 0
            && |ss| - |Swept(ss, Purged(ms, 20), 20)| == 1
  {
    var ms := [Message(0, "hi", "user", "s", 10)];
    var ss := [Session("s", "s", 0, 10)];
    assert Filter(ms, Not(Expired(20))) == Filter([], Not(Expired(20)));
    assert CountOwned(ms, "s") != 0;
    assert Filter(ss, Idle(20)) == ss by { assert Filter([], Idle(20)) == []; }
    assert Filter(ss, Unowned(ms)) == [] by { assert Filter([], Unowned(ms)) == []; }
    assert Filter(ss, Not(Eligible(20, []))) == [] by { assert Filter([], Not(Eligible(20, []))) == []; }
  }

  /** The smallest timestamp of `ts`, if any (`findOne().sort({ createdAt: 1 })`). */
  function Oldest(ts: seq<Time>): (r: Option<Time>)
    ensures r.None? <==> ts == []
    ensures r.Some? ==> r.value in ts && forall t :: t in ts ==> r.value <= t
  {
    if ts == [] then None
    else
      match Oldest(ts[1..])
      case None => Some(ts[0])
      case Some(t) =>
        assert forall x :: x in ts ==> x == ts[0] || x in ts[1..];
        Some(if ts[0] <= t then ts[0] else t)
  }

  /** One timestamp per record, in table order. */
  function Times<T>(xs: seq<T>, at: T -> Time): (ts: seq<Time>)
    ensures |ts| == |xs| && forall i :: 0 <= i < |xs| ==> ts[i] == at(xs[i])
  {
    seq(|xs|, i requires 0 <= i < |xs| => at(xs[i]))
  }

  /** The `createdAt` of a message. */
  function MessageCreatedAt(m: Message): (t: Time)
  {
    m.createdAt
  }

  /** The `createdAt` of a session. */
  function SessionCreatedAt(s: Session): (t: Time)
  {
    s.createdAt
  }

  /** The ids of a sequence of sessions. */
  function IdSet(ss: seq<Session>): (d: set<string>)
    ensures forall s :: s in ss ==> s.id in d
    ensures forall id :: id in d ==> exists s :: s in ss && s.id == id
  {
    set s | s in ss :: s.id
  }

  /** The `_id`s of a sequence extended by one session. */
  lemma IdSetSnoc(ss: seq<Session>, s: Session)
    ensures IdSet(ss + [s]) == IdSet(ss) + {s.id}
  {
    forall id | id in IdSet(ss + [s])
      ensures id in IdSet(ss) + {s.id}
    {
      var t :| t in ss + [s] && t.id == id;
      if t != s {
        assert t in ss;
      }
    }
    forall t | t in ss
      ensures t in ss + [s]
    {
    }
    assert s in ss + [s];
  }

  /** Session selector "`_id` not among `gone`": what is left after deleting each of `gone` by `_id`. */
  function NotIdIn(gone: set<string>): (p: Session -> bool)
    ensures forall s :: p(s) <==> s.id !in gone
  {
    (s: Session) => s.id !in gone
  }

  /** Deleting one more `_id` after a set of them. */
  lemma DeleteOneMore(ss: seq<Session>, gone: set<string>, id: string)
    ensures Filter(Filter(ss, NotIdIn(gone)), NotIdIn({id})) == Filter(ss, NotIdIn(gone + {id}))
  {
    FilterFilter(ss, NotIdIn(gone), NotIdIn({id}));
    FilterExt(ss, Both(NotIdIn(gone), NotIdIn({id})), NotIdIn(gone + {id}));
  }

  /** Filtering keeps the keys of the sessions table unique. */
  lemma {:induction false} FilterKeepsUniqueKeys(ss: seq<Session>, p: Session -> bool)
    requires UniqueKeys(ss)
    ensures UniqueKeys(Filter(ss, p))
    decreases |ss|
  {
    if ss != [] {
      var init, last := ss[..|ss| - 1], ss[|ss| - 1];
      assert UniqueKeys(init) by {
        forall i, j | 0 <= i < j < |init| ensures init[i].id != init[j].id && init[i].sessionID != init[j].sessionID {
          assert init[i] == ss[i] && init[j] == ss[j];
        }
      }
      FilterKeepsUniqueKeys(init, p);
      var r := Filter(init, p);
      forall x | x in r ensures x.id != last.id && x.sessionID != last.sessionID {
        var i :| 0 <= i < |init| && init[i] == x;
        assert ss[i] == x;
      }
    }
  }

  /**
   * Under unique `_id`s, deleting by `_id` every session of a subset `sub`
   * deletes exactly the records of `sub`.
   */
  lemma DeletedById(ss: seq<Session>, sub: seq<Session>, s: Session)
    requires UniqueKeys(ss)
    requires forall t :: t in sub ==> t in ss
    requires s in ss
    ensures s.id in IdSet(sub) <==> s in sub
  {
    if s.id in IdSet(sub) {
      var t :| t in sub && t.id == s.id;
      UniqueKeysById(ss, s, t);
    }
  }
}
