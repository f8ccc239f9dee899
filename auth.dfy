/**
 * The API-key gate of backend/src/middleware/auth.js, which every cleanup
 * route passes through.
 */
module Auth {
  import opened Outcomes

  /** The message of the 401 body. */
  const UnauthorizedMessage := "Unauthorized: Invalid API key"

  /** The 401 reply `{ success: false, message }`. */
  datatype Rejection = Rejection(status: int, success: bool, message: string)

  /** `requireApiKey` either calls `next()` or answers with a rejection (and never calls `next`). */
  datatype Gate = Next | Reject(reply: Rejection)

  /** The one rejection the gate ever sends. */
  const Unauthorized := Rejection(401, false, UnauthorizedMessage)

  /**
   * `requireApiKey(req, res, next)`: `header` is the `x-api-key` request
   * header and `expected` the `CLEANUP_API_KEY` setting, each `None` when
   * absent. A missing or empty header, or one that differs from the setting,
   * is rejected.
   */
  function RequireApiKey(header: Option<string>, expected: Option<string>): (g: Gate)
    ensures g.Next? <==> header.Some? && header.value != "" && expected == Some(header.value)
    ensures g.Reject? ==> g.reply == Unauthorized
  {
    if header.None? || header.value == "" then Reject(Unauthorized)
    else if expected.None? || header.value != expected.value then Reject(Unauthorized)
    else Next
  }

  /** With `CLEANUP_API_KEY` unset, no header gets through. */
  lemma UnsetKeyRejectsAll(header: Option<string>)
    ensures RequireApiKey(header, None) == Reject(Unauthorized)
  {
  }

  /** A missing header, an empty one and a wrong one all get the same 401 body. */
  lemma SameRejection(expected: Option<string>, wrong: string)
    requires expected != Some(wrong)
    ensures RequireApiKey(None, expected) == RequireApiKey(Some(""), expected)
    ensures RequireApiKey(Some(wrong), expected) == Reject(Unauthorized)
  {
  }
}
