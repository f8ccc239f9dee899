/**
 * The response envelopes of backend/src/lib/responseUtils.js.
 */
module Responses {
  import opened Outcomes

  /** `{ success: true, status, message, data }`. */
  datatype SuccessEnvelope<D> = SuccessEnvelope(success: bool, status: int, message: string, data: D)

  /** The `error` argument of `errorResponse`: nothing (`null`), a plain value, or an `Error` object. */
  datatype ErrorArg = NullError | TextError(text: string) | ErrorObject(message: string)

  /** `{ success: false, status, message, error }`. */
  datatype ErrorEnvelope = ErrorEnvelope(success: bool, status: int, message: string, error: ErrorArg)

  /** A chat message built outside the store; `id` is `chat_` followed by the time in decimal. */
  datatype ChatMessage = ChatMessage(id: string, role: string, content: string, createdAt: nat, sessionId: Option<string>)

  /** `successResponse(data, message = 'Success', status = 200)`. */
  function SuccessResponse<D>(data: D, message: string := "Success", status: int := 200): (r: SuccessEnvelope<D>)
    ensures r.success && r.data == data && r.message == message && r.status == status
  {
    SuccessEnvelope(true, status, message, data)
  }

  /**
   * The field `error?.message || error`: an `Error` with a non-empty message
   * gives that message; anything else (including an `Error` whose message is
   * empty) gives the argument itself.
   */
  function ErrorField(e: ErrorArg): (f: ErrorArg)
    ensures e.ErrorObject? && e.message != "" ==> f == TextError(e.message)
    ensures !(e.ErrorObject? && e.message != "") ==> f == e
    ensures f.ErrorObject? ==> f.message == ""
  {
    if e.ErrorObject? && e.message != "" then TextError(e.message) else e
  }

  /** `errorResponse(message, error = null, status = 500)`. */
  function ErrorResponse(message: string, error: ErrorArg := NullError, status: int := 500): (r: ErrorEnvelope)
    ensures !r.success && r.message == message && r.status == status
    ensures r.error == ErrorField(error)
  {
    ErrorEnvelope(false, status, message, ErrorField(error))
  }

  /** The defaults: status 200 and message 'Success' on success, status 500 and error `null` on failure. */
  lemma EnvelopeDefaults<D>(data: D, message: string)
    ensures SuccessResponse(data) == SuccessEnvelope(true, 200, "Success", data)
    ensures ErrorResponse(message) == ErrorEnvelope(false, 500, message, NullError)
  {
  }

  /** The character of a decimal digit. */
  function DigitChar(d: nat): (c: char)
    requires d < 10
    ensures '0' <= c <= '9'
  {
    ('0' as int + d) as char
  }

  /** The value of a decimal digit character (0 for any other character). */
  function DigitValue(c: char): (d: nat)
    ensures d < 10
    ensures '0' <= c <= '9' ==> DigitChar(d) == c
  {
    if '0' <= c <= '9' then c as int - '0' as int else 0
  }

  /** Reading a string of decimal digits, left to right. */
  function ParseDecimal(s: string): (n: nat)
    decreases |s|
  {
    if s == [] then 0 else ParseDecimal(s[..|s| - 1]) * 10 + DigitValue(s[|s| - 1])
  }

  /** `String(n)` for a non-negative integer: its decimal digits, and reading them back gives `n`. */
  function Decimal(n: nat): (r: string)
    ensures |r| >= 1
    ensures forall i :: 0 <= i < |r| ==> '0' <= r[i] <= '9'
    ensures ParseDecimal(r) == n
    decreases n
  {
    if n < 10 then [DigitChar(n)]
    else
      var init := Decimal(n / 10);
      var r := init + [DigitChar(n % 10)];
      assert r[..|r| - 1] == init;
      r
  }

  /**
   * `chatResponse(content, role = 'assistant', sessionId = null)`. The clock
   * is read twice: `now` is what `Date.now()` gives for the id, `createdAt`
   * what `new Date()` gives a moment later. The two usually agree, but
   * nothing makes them.
   */
  function ChatResponse(content: string, now: nat, createdAt: nat, role: string := "assistant",
                        sessionId: Option<string> := None)
    : (r: ChatMessage)
    ensures r.content == content && r.role == role && r.sessionId == sessionId && r.createdAt == createdAt
    ensures r.id == "chat_" + Decimal(now)
  {
    ChatMessage("chat_" + Decimal(now), role, content, createdAt, sessionId)
  }

  /** The time of the id can be read back from it. */
  lemma ChatIdDecodes(content: string, now: nat, createdAt: nat)
    ensures |ChatResponse(content, now, createdAt).id| > 5
    ensures ParseDecimal(ChatResponse(content, now, createdAt).id[5..]) == now
  {
    assert ("chat_" + Decimal(now))[5..] == Decimal(now);
  }

  /** Chat messages whose ids were taken at different milliseconds get different ids. */
  lemma ChatIdsDiffer(c1: string, c2: string, t1: nat, t2: nat, d1: nat, d2: nat)
    requires t1 != t2
    ensures ChatResponse(c1, t1, d1).id != ChatResponse(c2, t2, d2).id
  {
    ChatIdDecodes(c1, t1, d1);
    ChatIdDecodes(c2, t2, d2);
  }

  /** Defaults of `chatResponse`: role 'assistant' and no session. */
  lemma ChatDefaults(content: string, now: nat, createdAt: nat)
    ensures ChatResponse(content, now, createdAt).role == "assistant"
    ensures ChatResponse(content, now, createdAt).sessionId == None
  {
  }
}
