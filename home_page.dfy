/**
 * The client logic of app/page.tsx: the fingerprint identifier set on mount,
 * the click guard and busy flags of `handleGenerate`, and the mapping from a
 * failed call's `error.data.message` to the notice shown. Rendering, toasts,
 * the clipboard and timers are outside the model; a notice stands for the toast.
 */
module HomePage {
  import opened Wrappers
  import opened JsText
  import opened JsonValue
  import opened ConvexErrors
  import opened ResponseNormalization
  import opened TrademarkActions
  import opened Fingerprint

  /** A rejected call as the browser sees it: `error.data`, absent for an error that is not a ConvexError. */
  datatype ClientError = ClientError(data: Option<ErrorData>)

  /** A ConvexError thrown by the action reaches the browser with its data payload. */
  function Delivered(e: ConvexError): (c: ClientError)
    ensures c.data.Some?
    ensures e.data.Fields? ==> MessageOf(c) == Some(e.data.message)
    ensures e.data.Text? ==> MessageOf(c).None?
  {
    ClientError(Some(e.data))
  }

  /** `errorData?.message`: only an object payload has a message; a bare string has none. */
  function MessageOf(e: ClientError): (m: Option<JsString>)
    ensures m.Some? <==> e.data.Some? && e.data.value.Fields?
  {
    match e.data
    case Some(Fields(message, _)) => Some(message)
    case _ => None
  }

  /** The notices of lines 107-125, in the order they are tried. */
  datatype Notice = DailyLimit | HourlyLimit | TooManyRequests | SecurityCheck | KeyNotConfigured | GenerationFailed

  const DailyPattern: JsString := Ascii("Daily limit")
  const HourlyPattern: JsString := Ascii("Hourly limit")
  const RatePattern: JsString := Ascii("Rate limit")
  const InvalidPattern: JsString := Ascii("Invalid request")
  const KeyPattern: JsString := Ascii("OpenAI API key")

  /** The specific notices, highest priority first, each with the text its branch looks for. */
  const Specific: seq<Notice> := [DailyLimit, HourlyLimit, TooManyRequests, SecurityCheck, KeyNotConfigured]
  const Patterns: seq<JsString> := [DailyPattern, HourlyPattern, RatePattern, InvalidPattern, KeyPattern]

  /** `errorData?.message?.includes(p)`. */
  predicate Mentions(e: ClientError, p: JsString)
    ensures Mentions(e, p) ==> MessageOf(e).Some?
    ensures MessageOf(e).Some? ==> (Mentions(e, p) <==> Contains(MessageOf(e).value, p))
  {
    MessageOf(e).Some? && Contains(MessageOf(e).value, p)
  }

  /**
   * The if-chain of lines 107-125: the first specific notice whose text the
   * message includes, or the generic failure when none does.
   */
  function Classify(e: ClientError): (n: Notice)
    ensures n == GenerationFailed <==> forall i :: 0 <= i < |Patterns| ==> !Mentions(e, Patterns[i])
    ensures forall i :: 0 <= i < |Specific| && Specific[i] == n ==>
              Mentions(e, Patterns[i]) && forall j :: 0 <= j < i ==> !Mentions(e, Patterns[j])
    ensures MessageOf(e).None? ==> n == GenerationFailed
  {
    assert Patterns[0] == DailyPattern && Patterns[1] == HourlyPattern && Patterns[2] == RatePattern;
    assert Patterns[3] == InvalidPattern && Patterns[4] == KeyPattern;
    if Mentions(e, DailyPattern) then DailyLimit
    else if Mentions(e, HourlyPattern) then HourlyLimit
    else if Mentions(e, RatePattern) then TooManyRequests
    else if Mentions(e, InvalidPattern) then SecurityCheck
    else if Mentions(e, KeyPattern) then KeyNotConfigured
    else GenerationFailed
  }

  lemma RateLimitMessageMentionsRate()
    ensures Contains(RateLimitMessage, RatePattern)
  {
  }

  lemma RateLimitMessageLacks(c: char, p: JsString)
    requires c as int < 0x80 && |p| > 0 && p[0] == c as int
    requires c !in "Rate limit" && c !in " exceeded. Please try again later."
    ensures !Contains(RateLimitMessage, p)
  {
    AsciiAbsent("Rate limit", c);
    AsciiAbsent(" exceeded. Please try again later.", c);
    AbsentHead(RateLimitMessage, p);
  }

  /**
   * Of everything `generateTrademarks` throws, only the rate-limit rejection
   * gets a notice of its own (the per-minute one); every other error, the
   * missing key included, since it carries a bare string, shows the generic
   * failure. The daily, hourly, invalid-request and key notices never appear.
   */
  lemma ServerErrorNotice(admission: Admission, apiKey: Option<JsString>, completion: Completion,
                          parse: JsString -> Option<Json>)
    requires Generate(admission, apiKey, completion, parse).Failure?
    ensures Classify(Delivered(Generate(admission, apiKey, completion, parse).error)) ==
              if admission.ok then GenerationFailed else TooManyRequests
  {
    var e := Generate(admission, apiKey, completion, parse).error;
    if !admission.ok {
      RateLimitNotice(admission.retryAfter);
    } else {
      assert e.data.Text?;
      assert MessageOf(Delivered(e)).None?;
    }
  }

  /** The rate-limit rejection shows the per-minute notice, whatever its retry time. */
  lemma RateLimitNotice(retryAfter: Option<int>)
    ensures Classify(Delivered(RateLimitError(retryAfter))) == TooManyRequests
  {
    var e := Delivered(RateLimitError(retryAfter));
    assert MessageOf(e) == Some(RateLimitMessage);
    RateLimitMessageMentionsRate();
    RateLimitMessageLacks('D', DailyPattern);
    RateLimitMessageLacks('H', HourlyPattern);
    assert !Mentions(e, DailyPattern) && !Mentions(e, HourlyPattern) && Mentions(e, RatePattern);
  }

  /** The outcome of one click on the generate button. */
  datatype Click = Ignored | Throttled | Generated(names: seq<Trademark>) | Failed(notice: Notice)

  /** How far the first half of `handleGenerate` got. */
  datatype Start = NoIdentifier | TooFast | Started

  const ClickInterval: int := 500

  /** `lastClickTime && (now - lastClickTime) < 500`: a time of 0 means no earlier click. */
  predicate TooSoon(lastClickTime: int, now: int)
    // the first click is never throttled, nor is one at least 500 ms after the last
    ensures lastClickTime == 0 ==> !TooSoon(lastClickTime, now)
    ensures now >= lastClickTime + ClickInterval ==> !TooSoon(lastClickTime, now)
    ensures TooSoon(lastClickTime, now) ==> now < lastClickTime + ClickInterval
    ensures lastClickTime != 0 && now < lastClickTime + ClickInterval ==> TooSoon(lastClickTime, now)
  {
    lastClickTime != 0 && now - lastClickTime < ClickInterval
  }

  /** The React state of the page component. */
  class Page {
    var trademarks: seq<Trademark>
    var isLoading: bool
    var isGenerating: bool
    var ipAddress: JsString
    var lastClickTime: int

    constructor ()
      ensures trademarks == [] && !isLoading && !isGenerating && ipAddress == [] && lastClickTime == 0
    {
      trademarks, isLoading, isGenerating, ipAddress, lastClickTime := [], false, false, [], 0;
    }

    /** The mount effect (lines 62-66): the fingerprint id becomes the caller's identifier. */
    method Mount(serialized: JsString)
      modifies this
      ensures ipAddress == FingerprintId(serialized) && IsFingerprintId(ipAddress)
      ensures trademarks == old(trademarks) && isLoading == old(isLoading)
      ensures isGenerating == old(isGenerating) && lastClickTime == old(lastClickTime)
    {
      var id := GenerateFingerprint(serialized);
      ipAddress := id;
    }

    /** Lines 82-93, up to the call: the guards, then the click time and both busy flags. */
    method BeginGenerate(now: int) returns (start: Start)
      modifies this
      ensures start == NoIdentifier <==> |ipAddress| == 0
      ensures start == TooFast <==> |ipAddress| > 0 && TooSoon(old(lastClickTime), now)
      ensures start != Started ==> lastClickTime == old(lastClickTime) &&
                                   isGenerating == old(isGenerating) && isLoading == old(isLoading)
      ensures start == Started ==> lastClickTime == now && isGenerating && isLoading
      ensures trademarks == old(trademarks) && ipAddress == old(ipAddress)
    {
      if |ipAddress| == 0 {
        return NoIdentifier;
      }
      if TooSoon(lastClickTime, now) {
        return TooFast;
      }
      lastClickTime := now;
      isGenerating := true;
      isLoading := true;
      start := Started;
    }

    /** Lines 95-129, after the call: the list is replaced only on success, the flags are always cleared. */
    method FinishGenerate(reply: Result<seq<Trademark>, ClientError>) returns (notice: Option<Notice>)
      modifies this
      ensures !isGenerating && !isLoading
      ensures trademarks == if reply.Success? then reply.value else old(trademarks)
      ensures notice == if reply.Success? then None else Some(Classify(reply.error))
      ensures ipAddress == old(ipAddress) && lastClickTime == old(lastClickTime)
    {
      if reply.Success? {
        trademarks := reply.value;
        notice := None;
      } else {
        notice := Some(Classify(reply.error));
      }
      isGenerating := false;
      isLoading := false;
    }

    /**
     * `handleGenerate` (lines 81-130) against the deployment: a click that
     * passes the guards runs the action with the page's identifier, and the
     * page ends idle, showing the new names or a notice.
     */
    method HandleGenerate(now: int, server: Deployment, admission: Admission, apiKey: Option<JsString>,
                          completion: Completion, parse: JsString -> Option<Json>, serverNow: int)
      returns (click: Click)
      modifies this, server
      ensures click == Ignored <==> |old(ipAddress)| == 0
      ensures click == Throttled <==> |old(ipAddress)| > 0 && TooSoon(old(lastClickTime), now)
      ensures click in {Ignored, Throttled} ==>
                lastClickTime == old(lastClickTime) && trademarks == old(trademarks) &&
                isGenerating == old(isGenerating) && isLoading == old(isLoading) &&
                server.trademarks == old(server.trademarks)
      ensures click !in {Ignored, Throttled} ==> lastClickTime == now && !isGenerating && !isLoading
      ensures click !in {Ignored, Throttled} ==>
                var r := Generate(admission, apiKey, completion, parse);
                if r.Success? then
                  click == Generated(r.value) && trademarks == r.value &&
                  server.trademarks == old(server.trademarks) + [Row(r.value, serverNow, old(ipAddress))]
                else
                  click == Failed(Classify(Delivered(r.error))) && trademarks == old(trademarks) &&
                  server.trademarks == old(server.trademarks)
      ensures ipAddress == old(ipAddress)
    {
      var start := BeginGenerate(now);
      if start == NoIdentifier {
        return Ignored;
      }
      if start == TooFast {
        return Throttled;
      }
      var result := server.GenerateTrademarks(ipAddress, admission, apiKey, completion, parse, serverNow);
      var reply: Result<seq<Trademark>, ClientError> :=
        if result.Success? then Success(result.value) else Failure(Delivered(result.error));
      var notice := FinishGenerate(reply);
      click := if result.Success? then Generated(result.value) else Failed(notice.value);
    }
  }
}
