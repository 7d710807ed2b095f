/**
 * The Convex functions of convex/trademarks.ts: the `trademarks` table as an
 * append-only sequence of rows, `saveTrademarks`, `getLatestTrademarks`, and
 * the `generateTrademarks` action as a pipeline of stages. The rate limiter,
 * the environment, the provider call, `JSON.parse` and `Date.now()` are inputs.
 */
module TrademarkActions {
  import opened Wrappers
  import opened JsText
  import opened JsonValue
  import opened ConvexErrors
  import opened ResponseNormalization

  /** A row of the `trademarks` table (convex/schema.ts). */
  datatype Row = Row(names: seq<Trademark>, createdAt: int, ipAddress: JsString)

  /** The answer of `rateLimiter.limit(ctx, "trademarkGeneration", {key})`. */
  datatype Admission = Admission(ok: bool, retryAfter: Option<int>)

  /** The provider call: it throws, or it answers with the content of its first choice, possibly null. */
  datatype Completion = ProviderThrew | Completed(content: Option<JsString>)

  /** `query("trademarks").order("desc").first()`: the last row inserted, whoever inserted it. */
  function Latest(table: seq<Row>): (r: Option<Row>)
    ensures r.None? <==> |table| == 0
    ensures r.Some? ==> r.value in table
  {
    if |table| == 0 then None else Some(table[|table| - 1])
  }

  /** Whatever the table held before, the row just inserted is the latest. */
  lemma LatestAfterInsert(table: seq<Row>, row: Row)
    ensures Latest(table + [row]) == Some(row)
  {
  }

  /** `!process.env.OPENAI_API_KEY` is false: the variable is set and not empty. */
  predicate KeyConfigured(apiKey: Option<JsString>)
    // an unset and an empty variable are the two falsy environment values
    ensures !KeyConfigured(apiKey) <==> apiKey.None? || apiKey == Some([])
  {
    apiKey.Some? && |apiKey.value| > 0
  }

  /** The outer catch (lines 174-179): a ConvexError is rethrown, anything else replaced. */
  function Catch(thrown: Thrown): (e: ConvexError)
    ensures thrown.Convex? ==> e == thrown.error
    ensures thrown.NonConvex? ==> e == GenericError
  {
    match thrown
    case Convex(error) => error
    case NonConvex => GenericError
  }

  /** The body of the try block up to the save (lines 116-165). */
  function Attempt(completion: Completion, parse: JsString -> Option<Json>): (r: Result<seq<Trademark>, Thrown>)
    ensures completion == ProviderThrew ==> r == Failure(NonConvex)
    ensures completion.Completed? && (completion.content.None? || |completion.content.value| == 0) ==>
              r == Failure(Convex(NoContentError))
    ensures r.Failure? ==> r.error in {NonConvex, Convex(NoContentError), Convex(ParseFailureError)}
    ensures r.Success? ==> |r.value| <= MaxTrademarks
    // a non-empty reply is handed to the normalisation, whose outcome is the attempt's
    ensures completion.Completed? && completion.content.Some? && |completion.content.value| > 0 ==>
              r == Normalize(completion.content.value, parse)
  {
    match completion
    case ProviderThrew => Failure(NonConvex)
    case Completed(content) =>
      if content.None? || |content.value| == 0 then Failure(Convex(NoContentError))
      else Normalize(content.value, parse)
  }

  /**
   * What `generateTrademarks` answers: the limiter is consulted first, the key
   * second, then the provider, the parse and the coercion.
   */
  function Generate(admission: Admission, apiKey: Option<JsString>, completion: Completion,
                    parse: JsString -> Option<Json>): (r: Result<seq<Trademark>, ConvexError>)
    // a rejected call fails with the limiter's retry time, whatever else holds
    ensures !admission.ok ==> r == Failure(RateLimitError(admission.retryAfter))
    // the missing key is reported exactly when the limiter has admitted the call
    ensures r == Failure(MissingKeyError) <==> admission.ok && !KeyConfigured(apiKey)
    ensures r.Failure? ==>
              r.error in {RateLimitError(admission.retryAfter), MissingKeyError, NoContentError,
                          ParseFailureError, GenericError}
    ensures r.Success? ==> admission.ok && KeyConfigured(apiKey) && completion.Completed?
    ensures r.Success? ==> |r.value| <= MaxTrademarks
    // an admitted, keyed call whose non-empty reply normalises returns the normalised names
    ensures admission.ok && KeyConfigured(apiKey) && completion.Completed? && completion.content.Some? &&
            |completion.content.value| > 0 && Normalize(completion.content.value, parse).Success? ==>
              r == Success(Normalize(completion.content.value, parse).value)
    // and fails with what the outer handler makes of the normalisation's throw, or of the provider's
    ensures admission.ok && KeyConfigured(apiKey) && completion.Completed? && completion.content.Some? &&
            |completion.content.value| > 0 && Normalize(completion.content.value, parse).Failure? ==>
              r == Failure(Catch(Normalize(completion.content.value, parse).error))
    ensures admission.ok && KeyConfigured(apiKey) && completion == ProviderThrew ==> r == Failure(GenericError)
  {
    if !admission.ok then Failure(RateLimitError(admission.retryAfter))
    else if !KeyConfigured(apiKey) then Failure(MissingKeyError)
    else
      match Attempt(completion, parse)
      case Failure(thrown) => Failure(Catch(thrown))
      case Success(names) => Success(names)
  }

  /** An admitted call with a key whose completion is null or empty fails with "Failed to generate trademarks". */
  lemma EmptyContentFails(retryAfter: Option<int>, apiKey: Option<JsString>, content: Option<JsString>,
                          parse: JsString -> Option<Json>)
    requires KeyConfigured(apiKey) && (content.None? || |content.value| == 0)
    ensures Generate(Admission(true, retryAfter), apiKey, Completed(content), parse) == Failure(NoContentError)
  {
  }

  /** Text the parser rejects, or a top-level null, fails with "Failed to parse OpenAI response". */
  lemma UnparseableFails(retryAfter: Option<int>, apiKey: Option<JsString>, content: JsString,
                         parse: JsString -> Option<Json>)
    requires KeyConfigured(apiKey) && |content| > 0
    requires parse(Clean(content)).None? || parse(Clean(content)) == Some(Null)
    ensures Generate(Admission(true, retryAfter), apiKey, Completed(Some(content)), parse) == Failure(ParseFailureError)
  {
  }

  /** A null among the first ten candidates is not a ConvexError, so it surfaces as the generic failure. */
  lemma NullCandidateFails(retryAfter: Option<int>, apiKey: Option<JsString>, content: JsString,
                           parse: JsString -> Option<Json>, candidates: seq<Json>, i: nat)
    requires KeyConfigured(apiKey) && |content| > 0
    requires parse(Clean(content)).Some? && Candidates(parse(Clean(content)).value) == Some(candidates)
    requires i < Min(MaxTrademarks, |candidates|) && candidates[i].Null?
    ensures Generate(Admission(true, retryAfter), apiKey, Completed(Some(content)), parse) == Failure(GenericError)
  {
    NullCandidateThrows(candidates, i);
  }

  /** A failing provider call is not a ConvexError either. */
  lemma ProviderFailureFails(retryAfter: Option<int>, apiKey: Option<JsString>, parse: JsString -> Option<Json>)
    requires KeyConfigured(apiKey)
    ensures Generate(Admission(true, retryAfter), apiKey, ProviderThrew, parse) == Failure(GenericError)
  {
  }

  /** A successful call returns the coerced first candidates of the parsed completion. */
  lemma SuccessIsNormalized(admission: Admission, apiKey: Option<JsString>, completion: Completion,
                            parse: JsString -> Option<Json>)
    requires Generate(admission, apiKey, completion, parse).Success?
    ensures completion.Completed? && completion.content.Some? && |completion.content.value| > 0
    ensures Normalize(completion.content.value, parse) == Success(Generate(admission, apiKey, completion, parse).value)
  {
  }

  /** Conversely, an admitted, keyed call whose reply normalises succeeds with the normalised names. */
  lemma NormalizedIsSuccess(retryAfter: Option<int>, apiKey: Option<JsString>, content: JsString,
                            parse: JsString -> Option<Json>, names: seq<Trademark>)
    requires KeyConfigured(apiKey) && |content| > 0
    requires Normalize(content, parse) == Success(names)
    ensures Generate(Admission(true, retryAfter), apiKey, Completed(Some(content)), parse) == Success(names)
  {
  }

  /**
   * End to end: up to ten well-formed records, written as a JSON array and
   * wrapped in a "```json" fence, come back from an admitted call unchanged.
   */
  lemma FencedRecordsGenerate(retryAfter: Option<int>, apiKey: Option<JsString>, x: JsString,
                              parse: JsString -> Option<Json>, ts: seq<Trademark>)
    requires KeyConfigured(apiKey) && Backtick !in x
    requires |ts| <= MaxTrademarks
    requires forall i :: 0 <= i < |ts| ==>
               |ts[i].name| > 0 && |ts[i].industry| > 0 && 0 < |ts[i].description| <= DescriptionLimit
    requires parse(Trim(x)) == Some(Arr(seq(|ts|, i requires 0 <= i < |ts| => RecordObject(ts[i]))))
    ensures Generate(Admission(true, retryAfter), apiKey, Completed(Some(Ascii("```json\n") + x + Ascii("\n```"))), parse)
              == Success(ts)
  {
    CleanFencedBlock(x);
    RecordsRoundTrip(ts);
  }

  /** The deployment's database: the `trademarks` table, in insertion order. */
  class Deployment {
    var trademarks: seq<Row>

    constructor ()
      ensures trademarks == []
    {
      trademarks := [];
    }

    /** `saveTrademarks` (lines 32-48): inserts one row stamped with the server clock. */
    method SaveTrademarks(names: seq<Trademark>, ipAddress: JsString, now: int)
      modifies this
      ensures trademarks == old(trademarks) + [Row(names, now, ipAddress)]
      ensures Latest(trademarks) == Some(Row(names, now, ipAddress))
    {
      trademarks := trademarks + [Row(names, now, ipAddress)];
      LatestAfterInsert(old(trademarks), Row(names, now, ipAddress));
    }

    /** `getLatestTrademarks` (lines 20-29). */
    method GetLatestTrademarks() returns (latest: Option<Row>)
      ensures latest == Latest(trademarks)
      ensures latest.None? <==> |trademarks| == 0
    {
      latest := Latest(trademarks);
    }

    /**
     * `generateTrademarks` (lines 64-181), stage by stage. A row is inserted
     * exactly when the call succeeds, holding the returned names and the
     * caller's identifier; on every failure the table is untouched.
     */
    method GenerateTrademarks(ipAddress: JsString, admission: Admission, apiKey: Option<JsString>,
                              completion: Completion, parse: JsString -> Option<Json>, now: int)
      returns (result: Result<seq<Trademark>, ConvexError>)
      modifies this
      ensures result == Generate(admission, apiKey, completion, parse)
      ensures result.Success? ==> trademarks == old(trademarks) + [Row(result.value, now, ipAddress)]
      ensures result.Failure? ==> trademarks == old(trademarks)
    {
      if !admission.ok {
        return Failure(RateLimitError(admission.retryAfter));
      }
      if !KeyConfigured(apiKey) {
        return Failure(MissingKeyError);
      }
      var names: seq<Trademark>;
      match completion {
        case ProviderThrew =>
          return Failure(Catch(NonConvex));
        case Completed(content) =>
          if content.None? || |content.value| == 0 {
            return Failure(Catch(Convex(NoContentError)));
          }
          var normalized := Normalize(content.value, parse);
          if normalized.Failure? {
            return Failure(Catch(normalized.error));
          }
          names := normalized.value;
      }
      SaveTrademarks(names, ipAddress, now);
      result := Success(names);
    }
  }
}
