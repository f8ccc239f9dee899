/**
 * The message helpers of backend/src/lib/messageUtils.js: the duplicate
 * check run before a message is stored, and the decoder that pulls the
 * reply text out of an n8n webhook answer.
 */
module MessageUtils {
  import opened Outcomes
  import opened Seqs
  import opened Records

  /** The default duplicate window, in milliseconds. */
  const DefaultWindow := 5000

  const MissingParameters := "Missing required parameters"
  const MissingContentOrRole := "Message must have content and role"

  /** The `message` argument of `isDuplicateMessage`: only its content and role are read. */
  datatype Draft = Draft(content: string, role: string)

  /** The duplicate query: same content, role and session, created at or after `since`. */
  function SameRecent(d: Draft, sessionId: string, since: Time): (p: Message -> bool)
    ensures forall m :: p(m) <==>
      m.content == d.content && m.role == d.role && m.sessionId == sessionId && m.createdAt >= since
  {
    (m: Message) => m.content == d.content && m.role == d.role && m.sessionId == sessionId && m.createdAt >= since
  }

  /**
   * `isDuplicateMessage(message, sessionId, messageModel, timeWindowMs)`.
   * `store` is the message model (`None` when it is not passed) and `fault`
   * the error its `findOne` throws, if any. Missing arguments throw before
   * any query; a failing query counts as "not a duplicate".
   */
  function IsDuplicateMessage(message: Option<Draft>, sessionId: string, store: Option<seq<Message>>,
                              now: Time, fault: Fault, window: int := DefaultWindow): (r: Result<bool>)
    ensures message.None? || sessionId == "" || store.None? ==> r == Err(MissingParameters)
    ensures message.Some? && sessionId != "" && store.Some? && (message.value.content == "" || message.value.role == "") ==>
      r == Err(MissingContentOrRole)
    ensures r.Err? ==> message.None? || sessionId == "" || store.None? || message.value.content == "" || message.value.role == ""
    ensures r.Ok? && fault.Throws? ==> r.value == false
    ensures r.Ok? && fault.NoFault? ==>
      (r.value <==> exists m :: m in store.value && m.content == message.value.content && m.role == message.value.role
                               && m.sessionId == sessionId && m.createdAt >= now - window)
  {
    if message.None? || sessionId == "" || store.None? then Err(MissingParameters)
    else if message.value.content == "" || message.value.role == "" then Err(MissingContentOrRole)
    else if fault.Throws? then Ok(false)
    else
      var found := Filter(store.value, SameRecent(message.value, sessionId, now - window));
      assert found != [] ==> found[0] in found;
      assert forall m :: m in store.value && SameRecent(message.value, sessionId, now - window)(m) ==> m in found;
      Ok(found != [])
  }

  /** A message stored at `now` with the same fields is a duplicate for any non-negative window. */
  lemma JustStoredIsDuplicate(m: Message, ms: seq<Message>, now: Time, window: int)
    requires m in ms && m.createdAt == now && m.content != "" && m.role != "" && m.sessionId != "" && window >= 0
    ensures IsDuplicateMessage(Some(Draft(m.content, m.role)), m.sessionId, Some(ms), now, NoFault, window) == Ok(true)
  {
  }

  /** The window's lower end is inclusive: a message exactly `window` old still counts. */
  lemma WindowIsInclusive(m: Message, now: Time, window: int)
    requires m.createdAt == now - window && m.content != "" && m.role != "" && m.sessionId != ""
    ensures IsDuplicateMessage(Some(Draft(m.content, m.role)), m.sessionId, Some([m]), now, NoFault, window) == Ok(true)
    ensures IsDuplicateMessage(Some(Draft(m.content, m.role)), m.sessionId, Some([m]), now + 1, NoFault, window) == Ok(false)
  {
    var d := Draft(m.content, m.role);
    assert Filter([m], SameRecent(d, m.sessionId, now + 1 - window)) == [];
  }

  /** Widening the window can only turn "not a duplicate" into "duplicate". */
  lemma WiderWindowFindsMore(message: Option<Draft>, sessionId: string, ms: seq<Message>, now: Time, w1: int, w2: int)
    requires w1 <= w2
    requires IsDuplicateMessage(message, sessionId, Some(ms), now, NoFault, w1) == Ok(true)
    ensures IsDuplicateMessage(message, sessionId, Some(ms), now, NoFault, w2) == Ok(true)
  {
  }

  /** A JSON value as the webhook returns it (`undefined` is folded into `Null`). */
  datatype Json =
    | Null
    | Bool(b: bool)
    | Num(n: int)
    | Str(s: string)
    | Arr(items: seq<Json>)
    | Obj(fields: map<string, Json>)

  /** JavaScript truthiness; arrays and objects are truthy even when empty. */
  predicate Truthy(v: Json)
  {
    match v
    case Null => false
    case Bool(b) => b
    case Num(n) => n != 0
    case Str(s) => s != ""
    case Arr(_) => true
    case Obj(_) => true
  }

  /** Property access `v.key` on a value that is not `null`: only objects carry the reply fields. */
  function Field(v: Json, key: string): (r: Json)
    ensures !v.Obj? ==> r == Null
  {
    if v.Obj? && key in v.fields then v.fields[key] else Null
  }

  /** The text returned when nothing usable came back. */
  const NoResponse := "No response from n8n"

  /** The fields tried, in order. */
  const ReplyKeys := ["output", "response", "message", "content"]

  /** The chain `v[k0] || v[k1] || ... || 'No response from n8n'`. */
  function FirstTruthy(v: Json, keys: seq<string>): (r: Json)
    ensures (forall i :: 0 <= i < |keys| ==> !Truthy(Field(v, keys[i]))) ==> r == Str(NoResponse)
    ensures forall i :: 0 <= i < |keys| && Truthy(Field(v, keys[i])) && (forall j :: 0 <= j < i ==> !Truthy(Field(v, keys[j]))) ==>
      r == Field(v, keys[i])
    decreases |keys|
  {
    if keys == [] then Str(NoResponse)
    else if Truthy(Field(v, keys[0])) then Field(v, keys[0])
    else FirstTruthy(v, keys[1..])
  }

  /**
   * `formatN8nResponse(responseData)`. Reading the fields of a `null` first
   * array element throws a `TypeError`, which the function does not catch.
   */
  function FormatN8nResponse(data: Json): (r: Result<Json>)
    ensures !Truthy(data) ==> r == Ok(Str(NoResponse))
    ensures data.Arr? && |data.items| > 0 ==>
      (r.Err? <==> data.items[0].Null?) && (r.Ok? ==> r.value == FirstTruthy(data.items[0], ReplyKeys))
    ensures data.Obj? || data == Arr([]) ==> r == Ok(FirstTruthy(data, ReplyKeys))
    ensures Truthy(data) && (data.Bool? || data.Num? || data.Str?) ==> r == Ok(data)
  {
    if !Truthy(data) then Ok(Str(NoResponse))
    else if data.Arr? && |data.items| > 0 then
      if data.items[0].Null? then Err("TypeError: Cannot read properties of null (reading 'output')")
      else Ok(FirstTruthy(data.items[0], ReplyKeys))
    else if data.Arr? || data.Obj? then Ok(FirstTruthy(data, ReplyKeys))
    else Ok(data)
  }

  /** Only the first element of a non-empty array is read; the rest is ignored. */
  lemma OnlyFirstElementCounts(first: Json, rest: seq<Json>)
    requires first.Obj?
    ensures FormatN8nResponse(Arr([first] + rest)) == FormatN8nResponse(first)
    ensures FormatN8nResponse(Arr([first] + rest)) == FormatN8nResponse(Arr([first]))
  {
  }

  /** `output` wins over every other field; `response` wins over `message` and `content`. */
  lemma FieldPriority(fields: map<string, Json>)
    ensures "output" in fields && Truthy(fields["output"]) ==>
      FormatN8nResponse(Obj(fields)) == Ok(fields["output"])
    ensures ("output" !in fields || !Truthy(fields["output"])) && "response" in fields && Truthy(fields["response"]) ==>
      FormatN8nResponse(Obj(fields)) == Ok(fields["response"])
  {
    var v := Obj(fields);
    assert ReplyKeys[0] == "output" && ReplyKeys[1] == "response";
    assert Field(v, ReplyKeys[0]) == (if "output" in fields then fields["output"] else Null);
  }

  /** An object with none of the four fields truthy, or an empty array, gives the default text. */
  lemma NoFieldGivesDefault(data: Json)
    requires data.Obj? || data == Arr([])
    requires forall k :: k in ReplyKeys ==> !Truthy(Field(data, k))
    ensures FormatN8nResponse(data) == Ok(Str(NoResponse))
  {
    assert forall i :: 0 <= i < |ReplyKeys| ==> ReplyKeys[i] in ReplyKeys;
  }
}
