/**
 * The session endpoints of backend/src/controllers/sessionController.js:
 * session ids drawn from 16 random bytes, get-or-create, and the two reads
 * that return sessions together with their messages.
 */
module Sessions {
  import opened Outcomes
  import opened Seqs
  import opened Records
  import opened Tables
  import opened Connection

  newtype byte = x: int | 0 <= x < 256

  /** A lower-case hexadecimal digit, as `Buffer.toString('hex')` writes it. */
  predicate IsHexDigit(c: char)
  {
    '0' <= c <= '9' || 'a' <= c <= 'f'
  }

  /** The digit for a value below 16. */
  function HexChar(d: nat): (c: char)
    requires d < 16
    ensures IsHexDigit(c)
  {
    if d < 10 then ('0' as int + d) as char else ('a' as int + d - 10) as char
  }

  /** The value of a hex digit. */
  function HexValue(c: char): (d: nat)
    requires IsHexDigit(c)
    ensures d < 16
  {
    if c <= '9' then c as int - '0' as int else c as int - 'a' as int + 10
  }

  /** Digit and value are inverse to each other. */
  lemma HexCharValue(d: nat, c: char)
    requires d < 16 && IsHexDigit(c)
    ensures HexValue(HexChar(d)) == d
    ensures HexChar(HexValue(c)) == c
  {
  }

  /** `buffer.toString('hex')`: two lower-case digits per byte, high nibble first. */
  function HexEncode(bs: seq<byte>): (r: string)
    ensures |r| == 2 * |bs|
    ensures forall i :: 0 <= i < |r| ==> IsHexDigit(r[i])
    decreases |bs|
  {
    if bs == [] then []
    else [HexChar(bs[0] as int / 16), HexChar(bs[0] as int % 16)] + HexEncode(bs[1..])
  }

  /** Reading a hex string back into bytes; `None` for an odd length or a character outside `0-9a-f`. */
  function HexDecode(s: string): (r: Option<seq<byte>>)
    ensures r.Some? ==> 2 * |r.value| == |s|
    decreases |s|
  {
    if s == [] then Some([])
    else if |s| < 2 || !IsHexDigit(s[0]) || !IsHexDigit(s[1]) then None
    else
      match HexDecode(s[2..])
      case None => None
      case Some(rest) => Some([(HexValue(s[0]) * 16 + HexValue(s[1])) as byte] + rest)
  }

  /** Decoding an encoding gives the bytes back. */
  lemma {:induction false} HexRoundTrip(bs: seq<byte>)
    ensures HexDecode(HexEncode(bs)) == Some(bs)
    decreases |bs|
  {
    if bs != [] {
      var b := bs[0] as int;
      var s := HexEncode(bs);
      assert s[2..] == HexEncode(bs[1..]);
      HexRoundTrip(bs[1..]);
      HexCharValue(b / 16, '0');
      HexCharValue(b % 16, '0');
      assert [bs[0]] + bs[1..] == bs;
    }
  }

  /** Every string that decodes is the encoding of what it decodes to: the encoding is the only spelling. */
  lemma {:induction false} HexCanonical(s: string)
    requires HexDecode(s).Some?
    ensures HexEncode(HexDecode(s).value) == s
    decreases |s|
  {
    if s != [] {
      var bs := HexDecode(s).value;
      HexCanonical(s[2..]);
      var b := bs[0] as int;
      assert b == HexValue(s[0]) * 16 + HexValue(s[1]);
      assert b / 16 == HexValue(s[0]) && b % 16 == HexValue(s[1]);
      HexCharValue(0, s[0]);
      HexCharValue(0, s[1]);
      assert bs[1..] == HexDecode(s[2..]).value;
      assert s == [s[0], s[1]] + s[2..];
    }
  }

  /** `generateSessionId()`: the hex form of the 16 bytes `crypto.randomBytes(16)` returned. */
  function GenerateSessionId(random: seq<byte>): (id: string)
    requires |random| == 16
    ensures |id| == 32
    ensures forall i :: 0 <= i < |id| ==> IsHexDigit(id[i])
    ensures HexDecode(id) == Some(random)
  {
    HexRoundTrip(random);
    HexEncode(random)
  }

  /** Different random bytes give different session ids. */
  lemma DistinctBytesDistinctIds(a: seq<byte>, b: seq<byte>)
    requires |a| == 16 && |b| == 16 && a != b
    ensures GenerateSessionId(a) != GenerateSessionId(b)
  {
  }

  /** A session with its messages, as `{ ...session.toObject(), messages }`. */
  datatype SessionEntry = SessionEntry(session: Session, messages: seq<Message>)

  /** The JSON bodies of the session endpoints. */
  datatype Body =
    | SessionJson(session: Session)
    | WithMessages(entry: SessionEntry)
    | EntryList(entries: seq<SessionEntry>)
    | ErrorJson(error: string)

  /** An HTTP status and a body. */
  datatype Reply = Reply(status: int, body: Body)

  /** Where the store throws during `createSession`: `Session.findById` or `Session.create`. */
  datatype CreateFaults = CreateFaults(find: Fault, create: Fault)

  const CreateFailed := Reply(500, ErrorJson("Failed to create session"))

  /** Appending a valid session whose keys are both new keeps the tables valid. */
  lemma InsertSessionKeepsValid(ms: seq<Message>, ss: seq<Session>, next: nat, s: Session)
    requires ValidTables(ms, ss, next) && ValidSession(s)
    requires forall t :: t in ss ==> t.id != s.id && t.sessionID != s.sessionID
    ensures ValidTables(ms, ss + [s], next)
  {
    var ss1 := ss + [s];
    forall i, j | 0 <= i < j < |ss1|
      ensures ss1[i].id != ss1[j].id && ss1[i].sessionID != ss1[j].sessionID
    {
      if j == |ss| {
        assert ss1[i] in ss;
      } else {
        assert ss1[i] == ss[i] && ss1[j] == ss[j];
      }
    }
  }

  /**
   * `createSession`: connect, draw an id, return the session stored under it
   * if there is one (status 200); otherwise insert a new session keyed twice
   * by the id (status 201). A failed connect, a throwing query or a clash on
   * the unique `sessionID` index gives 500 and stores nothing.
   */
  method CreateSession(db: Database, cache: ConnectionCache, uri: string, attempt: Result<Conn>,
                       random: seq<byte>, now: Time, faults: CreateFaults)
    returns (reply: Reply)
    requires |random| == 16
    requires db.Valid()
    modifies db`sessions, cache
    ensures db.Valid()
    ensures var step := ConnectStep(old(cache.cached), uri, attempt);
            cache.cached == step.cached && cache.connectCalls == old(cache.connectCalls) + (if step.connected then 1 else 0)
    ensures var id := GenerateSessionId(random);
            var step := ConnectStep(old(cache.cached), uri, attempt);
            && (step.result.Err? || faults.find.Throws? ==> reply == CreateFailed && db.sessions == old(db.sessions))
            && (step.result.Ok? && faults.find.NoFault? && FindById(old(db.sessions), id).Some? ==>
                  reply == Reply(200, SessionJson(FindById(old(db.sessions), id).value)) && db.sessions == old(db.sessions))
            && (step.result.Ok? && faults.find.NoFault? && FindById(old(db.sessions), id).None? ==>
                  if faults.create.Throws? || exists t :: t in old(db.sessions) && t.sessionID == id then
                    reply == CreateFailed && db.sessions == old(db.sessions)
                  else
                    reply == Reply(201, SessionJson(Session(id, id, now, now)))
                    && db.sessions == old(db.sessions) + [Session(id, id, now, now)])
  {
    var conn := cache.ConnectDB(uri, attempt);
    if conn.Err? {
      return CreateFailed;
    }
    var id := GenerateSessionId(random);
    if faults.find.Throws? {
      return CreateFailed;
    }
    var ss := db.sessions;
    var existing := FindById(ss, id);
    if existing.Some? {
      return Reply(200, SessionJson(existing.value));
    }
    var created := NewSession(id, id, now);
    if faults.create.Throws? || exists t :: t in ss && t.sessionID == id {
      return CreateFailed;
    }
    InsertSessionKeepsValid(db.messages, ss, db.nextMessageId, created.value);
    db.sessions := ss + [created.value];
    reply := Reply(201, SessionJson(created.value));
  }

  /** Once a session is created, looking its id up finds it: a second create with the same bytes returns it unchanged. */
  lemma CreatedIsFound(ss: seq<Session>, s: Session)
    requires FindById(ss, s.id).None?
    ensures FindById(ss + [s], s.id) == Some(s)
  {
    assert s in ss + [s];
    var r := FindById(ss + [s], s.id).value;
    assert r in ss + [s] && r.id == s.id;
    assert r !in ss;
  }

  /** Where the store throws during `getSessionById`: `Session.findById` or `Message.find`. */
  datatype ReadFaults = ReadFaults(find: Fault, messages: Fault)

  const FetchFailed := Reply(500, ErrorJson("Failed to fetch session"))

  /**
   * `getSessionById`: the session with `_id == id` and its messages in
   * ascending creation order; 404 when there is no such session, 500 when
   * the connect or a query fails.
   */
  method GetSessionById(db: Database, cache: ConnectionCache, uri: string, attempt: Result<Conn>, id: string,
                        faults: ReadFaults)
    returns (reply: Reply)
    modifies cache
    ensures var step := ConnectStep(old(cache.cached), uri, attempt);
            cache.cached == step.cached && cache.connectCalls == old(cache.connectCalls) + (if step.connected then 1 else 0)
    ensures var step := ConnectStep(old(cache.cached), uri, attempt);
            && (step.result.Err? || faults.find.Throws? ==> reply == FetchFailed)
            && (step.result.Ok? && faults.find.NoFault? && FindById(db.sessions, id).None? ==>
                  reply == Reply(404, ErrorJson("Session not found")))
            && (step.result.Ok? && faults.find.NoFault? && FindById(db.sessions, id).Some? ==>
                  reply == if faults.messages.Throws? then FetchFailed
                           else Reply(200, WithMessages(SessionEntry(FindById(db.sessions, id).value, SessionMessages(db.messages, id)))))
  {
    var conn := cache.ConnectDB(uri, attempt);
    if conn.Err? || faults.find.Throws? {
      return FetchFailed;
    }
    var session := FindById(db.sessions, id);
    if session.None? {
      return Reply(404, ErrorJson("Session not found"));
    }
    if faults.messages.Throws? {
      return FetchFailed;
    }
    reply := Reply(200, WithMessages(SessionEntry(session.value, SessionMessages(db.messages, id))));
  }

  /** Each session with the messages whose `sessionId` is its `_id`, in the order of the session table. */
  function Entries(ss: seq<Session>, ms: seq<Message>): (r: seq<SessionEntry>)
    ensures |r| == |ss|
    ensures forall i :: 0 <= i < |ss| ==> r[i].session == ss[i]
    ensures forall i, m :: 0 <= i < |ss| ==> (m in r[i].messages <==> m in ms && m.sessionId == ss[i].id)
    ensures forall i :: 0 <= i < |ss| ==> SortedByCreatedAt(r[i].messages)
    ensures forall i :: 0 <= i < |ss| ==> multiset(r[i].messages) == multiset(Filter(ms, InSession(ss[i].id)))
  {
    seq(|ss|, i requires 0 <= i < |ss| => SessionEntry(ss[i], SessionMessages(ms, ss[i].id)))
  }

  /** Under unique keys no message is listed under two sessions, and a message of a listed session is listed under it. */
  lemma EntriesPartition(ss: seq<Session>, ms: seq<Message>, m: Message)
    requires UniqueKeys(ss) && m in ms
    ensures forall i, j :: 0 <= i < j < |ss| ==> !(m in Entries(ss, ms)[i].messages && m in Entries(ss, ms)[j].messages)
    ensures forall i :: 0 <= i < |ss| && ss[i].id == m.sessionId ==> m in Entries(ss, ms)[i].messages
  {
  }

  /** Where the store throws during `getAllSessions`: `Session.find`, or the message query of the sessions in `failing`. */
  datatype ListFaults = ListFaults(find: Fault, failing: set<string>)

  /** Some session's message query throws, which rejects the whole `Promise.all`. */
  predicate AnyQueryFails(ss: seq<Session>, failing: set<string>)
  {
    exists i :: 0 <= i < |ss| && ss[i].id in failing
  }

  const ListFailed := Reply(500, ErrorJson("Failed to fetch sessions"))

  /** `getAllSessions`: every session with its messages; 500 when the connect, the session query or any message query fails. */
  method GetAllSessions(db: Database, cache: ConnectionCache, uri: string, attempt: Result<Conn>, faults: ListFaults)
    returns (reply: Reply)
    modifies cache
    ensures var step := ConnectStep(old(cache.cached), uri, attempt);
            cache.cached == step.cached && cache.connectCalls == old(cache.connectCalls) + (if step.connected then 1 else 0)
    ensures var step := ConnectStep(old(cache.cached), uri, attempt);
            reply == if step.result.Err? || faults.find.Throws? || AnyQueryFails(db.sessions, faults.failing) then ListFailed
                     else Reply(200, EntryList(Entries(db.sessions, db.messages)))
  {
    var conn := cache.ConnectDB(uri, attempt);
    if conn.Err? || faults.find.Throws? || AnyQueryFails(db.sessions, faults.failing) {
      return ListFailed;
    }
    reply := Reply(200, EntryList(Entries(db.sessions, db.messages)));
  }
}
