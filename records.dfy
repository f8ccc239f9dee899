/**
 * The two document schemas (Message and Session) and the validation rules
 * Mongoose applies to them before a record is written.
 *
 * A required string field is missing when it is absent, null or the empty
 * string; all three are written "" here.
 */
module Records {
  import opened Outcomes

  /** Milliseconds since the epoch, the value a JavaScript `Date` holds. */
  type Time = int

  /** One turn of a conversation; `id` stands for the store's generated `_id`. */
  datatype Message = Message(id: nat, content: string, role: string, sessionId: string, createdAt: Time)

  /** A conversation; `id` is the string primary key `_id`, `sessionID` a second unique key. */
  datatype Session = Session(id: string, sessionID: string, createdAt: Time, updatedAt: Time)

  /** A schema path that failed validation, as reported in a `ValidationError`. */
  datatype Violation =
    | Required(path: string)
    | NotInEnum(path: string, value: string)

  /** The `enum` of the `role` path. */
  predicate IsRole(role: string)
  {
    role == "user" || role == "assistant"
  }

  /** The violations the message schema reports for the given field values. */
  function MessageViolations(content: string, role: string, sessionId: string): (v: set<Violation>)
    ensures Required("content") in v <==> content == ""
    ensures Required("role") in v <==> role == ""
    ensures NotInEnum("role", role) in v <==> role != "" && !IsRole(role)
    ensures Required("sessionId") in v <==> sessionId == ""
    ensures v == {} <==> content != "" && IsRole(role) && sessionId != ""
  {
    (if content == "" then {Required("content")} else {})
    + (if role == "" then {Required("role")} else if !IsRole(role) then {NotInEnum("role", role)} else {})
    + (if sessionId == "" then {Required("sessionId")} else {})
  }

  /** A stored message satisfies its schema. */
  predicate ValidMessage(m: Message)
  {
    MessageViolations(m.content, m.role, m.sessionId) == {}
  }

  /**
   * `new Message({content, role, sessionId})` followed by validation: the
   * record gets `createdAt` = the creation time `now` by default, or the
   * validation error is raised.
   */
  function NewMessage(id: nat, content: string, role: string, sessionId: string, now: Time): (r: Result<Message>)
    ensures r.Ok? <==> content != "" && IsRole(role) && sessionId != ""
    ensures r.Ok? ==> ValidMessage(r.value) && r.value.createdAt == now && r.value.id == id
    ensures r.Ok? ==> r.value.content == content && r.value.role == role && r.value.sessionId == sessionId
  {
    if MessageViolations(content, role, sessionId) == {} then Ok(Message(id, content, role, sessionId, now))
    else Err("Message validation failed")
  }

  /** The violations the session schema reports. */
  function SessionViolations(id: string, sessionID: string): (v: set<Violation>)
    ensures Required("_id") in v <==> id == ""
    ensures Required("sessionID") in v <==> sessionID == ""
    ensures v == {} <==> id != "" && sessionID != ""
  {
    (if id == "" then {Required("_id")} else {}) + (if sessionID == "" then {Required("sessionID")} else {})
  }

  /** A stored session satisfies its schema. */
  predicate ValidSession(s: Session)
  {
    SessionViolations(s.id, s.sessionID) == {}
  }

  /**
   * `new Session({_id, sessionID})` with `timestamps: true`: both timestamps
   * are set to the creation time, or the validation error is raised.
   */
  function NewSession(id: string, sessionID: string, now: Time): (r: Result<Session>)
    ensures r.Ok? <==> id != "" && sessionID != ""
    ensures r.Ok? ==> ValidSession(r.value) && r.value.id == id && r.value.sessionID == sessionID
    ensures r.Ok? ==> r.value.createdAt == now && r.value.updatedAt == now
  {
    if SessionViolations(id, sessionID) == {} then Ok(Session(id, sessionID, now, now))
    else Err("Session validation failed")
  }

  /** Both keys of the sessions table are unique: `_id` as primary key, `sessionID` by its unique index. */
  ghost predicate UniqueKeys(ss: seq<Session>)
  {
    forall i, j :: 0 <= i < j < |ss| ==> ss[i].id != ss[j].id && ss[i].sessionID != ss[j].sessionID
  }

  /** Under unique keys, a session record is determined by its `_id`. */
  lemma UniqueKeysById(ss: seq<Session>, s: Session, t: Session)
    requires UniqueKeys(ss)
    requires s in ss && t in ss && s.id == t.id
    ensures s == t
  {
    var i :| 0 <= i < |ss| && ss[i] == s;
    var j :| 0 <= j < |ss| && ss[j] == t;
    assert !(i < j) && !(j < i);
  }
}
