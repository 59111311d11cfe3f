/**
 * The third-party calls the server relies on, as function types supplied by the caller:
 * mongoose's `ObjectId.isValid` and jsonwebtoken's `jwt.verify`.
 */
module ExternalCalls {
  import opened Wrappers
  import opened JsValues

  /** `mongoose.Types.ObjectId.isValid`. */
  type IdCheck = string -> bool

  /** `jwt.verify`: the decoded payload, or the message of the error it throws. */
  type Verifier = string -> Result<Json, string>
}
