/**
 * The document store: the Message and Session collections held in memory,
 * and the queries the controllers and the cleanup engine run against them.
 */
module Tables {
  import opened Outcomes
  import opened Records
  import opened Seqs

  /** Query selector `{ sessionId: sid }` on messages. */
  function InSession(sid: string): (p: Message -> bool)
    ensures forall m :: p(m) <==> m.sessionId == sid
  {
    (m: Message) => m.sessionId == sid
  }

  /** `Message.countDocuments({ sessionId: sid })`. */
  function CountOwned(ms: seq<Message>, sid: string): (n: nat)
    ensures n == 0 <==> forall m :: m in ms ==> m.sessionId != sid
    ensures n <= |ms|
  {
    var owned := Filter(ms, InSession(sid));
    assert owned != [] ==> owned[0] in owned;
    assert forall m :: m in ms && m.sessionId == sid ==> m in owned;
    |owned|
  }

  /** `Session.findById(id)`: the first session whose `_id` is `id`, if any. */
  function FindById(ss: seq<Session>, id: string): (r: Option<Session>)
    ensures r.Some? <==> exists s :: s in ss && s.id == id
    ensures r.Some? ==> r.value in ss && r.value.id == id
  {
    if ss == [] then None
    else if ss[0].id == id then Some(ss[0])
    else FindById(ss[1..], id)
  }

  /** Ascending by `createdAt`, the order of `.sort({ createdAt: 1 })`. */
  ghost predicate SortedByCreatedAt(ms: seq<Message>)
  {
    forall i, j :: 0 <= i < j < |ms| ==> ms[i].createdAt <= ms[j].createdAt
  }

  /** Puts `m` in front of the first element that is not created before it. */
  function InsertByCreatedAt(m: Message, ms: seq<Message>): (r: seq<Message>)
    requires SortedByCreatedAt(ms)
    ensures SortedByCreatedAt(r)
    ensures multiset(r) == multiset(ms) + multiset{m}
    ensures r[0] == m || (ms != [] && r[0] == ms[0])
    decreases |ms|
  {
    if ms == [] || m.createdAt <= ms[0].createdAt then
      SortedCons(m, ms);
      [m] + ms
    else
      var rest := InsertByCreatedAt(m, ms[1..]);
      assert ms == [ms[0]] + ms[1..];
      SortedCons(ms[0], rest);
      [ms[0]] + rest
  }

  /** Putting a record no later than the head in front keeps the order. */
  lemma SortedCons(x: Message, s: seq<Message>)
    requires SortedByCreatedAt(s)
    requires s != [] ==> x.createdAt <= s[0].createdAt
    ensures SortedByCreatedAt([x] + s)
  {
    var t := [x] + s;
    forall i, j | 0 <= i < j < |t|
      ensures t[i].createdAt <= t[j].createdAt
    {
      if i == 0 {
        assert t[j] == s[j - 1];
      } else {
        assert t[i] == s[i - 1] && t[j] == s[j - 1];
      }
    }
  }

  /**
   * The store's sort on `createdAt`. Mongo leaves the order of equal
   * timestamps unspecified; this one is a particular choice, and the model
   * promises only what the store does: sorted, and the same records.
   */
  function SortByCreatedAt(ms: seq<Message>): (r: seq<Message>)
    ensures SortedByCreatedAt(r)
    ensures multiset(r) == multiset(ms)
    decreases |ms|
  {
    if ms == [] then []
    else
      assert ms == ms[..|ms| - 1] + [ms[|ms| - 1]];
      InsertByCreatedAt(ms[|ms| - 1], SortByCreatedAt(ms[..|ms| - 1]))
  }

  /** `Message.find({ sessionId: sid }).sort({ createdAt: 1 })`. */
  function SessionMessages(ms: seq<Message>, sid: string): (r: seq<Message>)
    ensures SortedByCreatedAt(r)
    ensures multiset(r) == multiset(Filter(ms, InSession(sid)))
    ensures forall m :: m in r <==> m in ms && m.sessionId == sid
  {
    var owned := Filter(ms, InSession(sid));
    var r := SortByCreatedAt(owned);
    SameMultisetSameElements(r, owned);
    r
  }

  /** Table invariant: records satisfy their schemas, session keys are unique, message ids are fresh. */
  ghost predicate ValidTables(ms: seq<Message>, ss: seq<Session>, nextMessageId: nat)
  {
    && UniqueKeys(ss)
    && (forall s :: s in ss ==> ValidSession(s))
    && (forall m :: m in ms ==> ValidMessage(m) && m.id < nextMessageId)
  }

  /** The two collections of the store. */
  class Database {
    var messages: seq<Message>
    var sessions: seq<Session>
    /** The `_id` the next inserted message receives. */
    var nextMessageId: nat

    /** The store's tables satisfy `ValidTables`. */
    ghost predicate Valid()
      reads this
    {
      ValidTables(messages, sessions, nextMessageId)
    }

    constructor ()
      ensures Valid()
      ensures messages == [] && sessions == [] && nextMessageId == 0
    {
      messages, sessions, nextMessageId := [], [], 0;
    }
  }
}
