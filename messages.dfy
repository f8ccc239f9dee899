/**
 * The message endpoints of backend/src/controllers/messageController.js:
 * storing one message, and listing the messages of a session.
 */
module Messages {
  import opened Outcomes
  import opened Seqs
  import opened Records
  import opened Tables

  /** The JSON bodies of the message endpoints. */
  datatype Body =
    | MessageJson(message: Message)
    | MessageList(messages: seq<Message>)
    | ErrorJson(error: string)

  /** An HTTP status and a body. */
  datatype Reply = Reply(status: int, body: Body)

  const MissingFields := Reply(400, ErrorJson("Missing required fields"))
  const CreateFailed := Reply(500, ErrorJson("Failed to create message"))

  /** Appending a valid message that carries the next id keeps the tables valid with the counter moved on. */
  lemma AppendMessageKeepsValid(ms: seq<Message>, ss: seq<Session>, next: nat, m: Message)
    requires ValidTables(ms, ss, next) && ValidMessage(m) && m.id == next
    ensures ValidTables(ms + [m], ss, next + 1)
  {
  }

  /**
   * `createMessage`: an empty `content`, `role` or `sessionId` is refused
   * with 400; a role outside the schema's enum, or a throwing insert, gives
   * 500. Otherwise the message is stored and echoed. Whether a session with
   * that id exists is not checked, and the session is not touched.
   */
  method CreateMessage(db: Database, content: string, role: string, sessionId: string, now: Time, fault: Fault)
    returns (reply: Reply)
    requires db.Valid()
    modifies db`messages, db`nextMessageId
    ensures db.Valid()
    ensures content == "" || role == "" || sessionId == "" ==>
      reply == MissingFields && db.messages == old(db.messages) && db.nextMessageId == old(db.nextMessageId)
    ensures content != "" && role != "" && sessionId != "" && (!IsRole(role) || fault.Throws?) ==>
      reply == CreateFailed && db.messages == old(db.messages) && db.nextMessageId == old(db.nextMessageId)
    ensures content != "" && IsRole(role) && sessionId != "" && fault.NoFault? ==>
      var m := Message(old(db.nextMessageId), content, role, sessionId, now);
      && reply == Reply(200, MessageJson(m))
      && db.messages == old(db.messages) + [m]
      && db.nextMessageId == old(db.nextMessageId) + 1
  {
    if content == "" || role == "" || sessionId == "" {
      return MissingFields;
    }
    var next := db.nextMessageId;
    var m := NewMessage(next, content, role, sessionId, now);
    if m.Err? || fault.Throws? {
      return CreateFailed;
    }
    AppendMessageKeepsValid(db.messages, db.sessions, next, m.value);
    db.messages := db.messages + [m.value];
    db.nextMessageId := next + 1;
    reply := Reply(200, MessageJson(m.value));
  }

  /** `getSessionMessages`: the messages of the session in ascending creation order, or 500 when the query throws. */
  method GetSessionMessages(db: Database, sessionId: string, fault: Fault) returns (reply: Reply)
    ensures fault.Throws? ==> reply == Reply(500, ErrorJson("Failed to fetch messages"))
    ensures fault.NoFault? ==> reply.status == 200 && reply.body.MessageList?
    ensures fault.NoFault? ==> SortedByCreatedAt(reply.body.messages)
    ensures fault.NoFault? ==> forall m :: m in reply.body.messages <==> m in db.messages && m.sessionId == sessionId
    ensures fault.NoFault? ==> multiset(reply.body.messages) == multiset(Filter(db.messages, InSession(sessionId)))
  {
    if fault.Throws? {
      return Reply(500, ErrorJson("Failed to fetch messages"));
    }
    reply := Reply(200, MessageList(SessionMessages(db.messages, sessionId)));
  }

  /** A stored message is listed under its session afterwards. */
  lemma CreatedIsListed(ms: seq<Message>, m: Message)
    ensures m in SessionMessages(ms + [m], m.sessionId)
  {
    assert m in ms + [m];
  }

  /** Storing a message leaves the listing of every other session as it was. */
  lemma {:induction false} OtherSessionsUnchanged(ms: seq<Message>, m: Message, other: string)
    requires m.sessionId != other
    ensures SessionMessages(ms + [m], other) == SessionMessages(ms, other)
  {
    FilterSnoc(ms, m, InSession(other));
    assert !InSession(other)(m);
    assert Filter(ms + [m], InSession(other)) == Filter(ms, InSession(other));
  }

  /** Storing a message adds exactly one to its session's listing. */
  lemma OwnListingGrowsByOne(ms: seq<Message>, m: Message)
    ensures |SessionMessages(ms + [m], m.sessionId)| == |SessionMessages(ms, m.sessionId)| + 1
  {
    FilterSnoc(ms, m, InSession(m.sessionId));
    var a := SessionMessages(ms + [m], m.sessionId);
    var b := SessionMessages(ms, m.sessionId);
    assert |multiset(a)| == |multiset(b)| + 1;
  }
}
