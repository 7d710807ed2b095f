/**
 * The errors `generateTrademarks` throws (convex/trademarks.ts). A
 * `ConvexError` carries a data payload that reaches the browser as
 * `error.data`: either a bare string or an object with a `message` field.
 */
module ConvexErrors {
  import opened Wrappers
  import opened JsText

  datatype ErrorData =
    | Text(text: JsString)                                  // new ConvexError("...")
    | Fields(message: JsString, retryAfter: Option<int>)   // new ConvexError({message, retryAfter})

  datatype ConvexError = ConvexError(data: ErrorData)

  /** What a step of the handler may throw: a ConvexError, or anything else (a TypeError, a provider failure). */
  datatype Thrown = Convex(error: ConvexError) | NonConvex

  // "Rate limit exceeded. Please try again later.", written in two pieces so
  // that the page's "Rate limit" pattern is literally its first piece
  const RateLimitMessage: JsString := Ascii("Rate limit") + Ascii(" exceeded. Please try again later.")
  const MissingKeyMessage: JsString := Ascii("OpenAI API key is not configured")
  const NoContentMessage: JsString := Ascii("Failed to generate trademarks")
  const ParseFailureMessage: JsString := Ascii("Failed to parse OpenAI response")
  // "Failed to generate trademarks. Please try again."
  const GenericMessage: JsString := NoContentMessage + Ascii(". Please try again.")

  /** The rejection of line 77: an object payload with the message and the limiter's retry time. */
  function RateLimitError(retryAfter: Option<int>): (e: ConvexError)
    ensures e.data.Fields? && e.data.message == RateLimitMessage && e.data.retryAfter == retryAfter
  {
    ConvexError(Fields(RateLimitMessage, retryAfter))
  }

  const MissingKeyError: ConvexError := ConvexError(Text(MissingKeyMessage))
  const NoContentError: ConvexError := ConvexError(Text(NoContentMessage))
  const ParseFailureError: ConvexError := ConvexError(Text(ParseFailureMessage))
  const GenericError: ConvexError := ConvexError(Text(GenericMessage))
}
