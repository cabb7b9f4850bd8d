/** The client's error type: its variants, how a transport error is
    classified into them, how each is displayed, and which ones expose an
    underlying cause. */
module Errors {
  import opened Common

  /** A `reqwest::Error`, known only by the text its `Display` prints. */
  datatype Cause = Cause(message: string)

  datatype ElevenLabsSTTError =
    | RequestError(cause: Cause)
    | ApiError(status: u16, message: string)
    | ParseError(cause: Cause)
    | AuthenticationError(msg: string)
    | RateLimitError(retryAfter: Option<u64>, message: string)
    | QuotaExceededError(msg: string)
    | ValidationError(msg: string)

  /** The HTTP status each variant stands for, when it stands for one. */
  function StatusOf(e: ElevenLabsSTTError): Option<u16> {
    match e
    case RequestError(_) => None
    case ApiError(status, _) => Some(status)
    case ParseError(_) => None
    case AuthenticationError(_) => Some(401)
    case RateLimitError(_, _) => Some(429)
    case QuotaExceededError(_) => Some(402)
    case ValidationError(_) => None
  }

  /** `From<reqwest::Error>`: a transport error is classified by the HTTP status
      it carries, if any. The status the result stands for is the status the
      error carried; a status-less error keeps the error as its cause. */
  function Classify(status: Option<u16>, cause: Cause): (e: ElevenLabsSTTError)
    ensures StatusOf(e) == status
    ensures e.RequestError? <==> status.None?
    ensures status == Some(401) ==> e == AuthenticationError("Invalid API key")
    ensures status == Some(429) ==> e == RateLimitError(None, "Too many requests")
    ensures status == Some(402) ==> e == QuotaExceededError("Insufficient credits")
    ensures status.Some? && status.value !in {401, 402, 429} ==> e == ApiError(status.value, cause.message)
    ensures status.None? ==> e == RequestError(cause)
  {
    match status
    case Some(code) =>
      if code == 401 then AuthenticationError("Invalid API key")
      else if code == 429 then RateLimitError(None, "Too many requests")
      else if code == 402 then QuotaExceededError("Insufficient credits")
      else ApiError(code, cause.message)
    case None => RequestError(cause)
  }

  /** Displayed messages open with these words, one per variant. */
  const RequestOpening := "Request failed: "
  const ApiOpening := "API error ("
  const ParseOpening := "Failed to parse response: "
  const AuthenticationOpening := "Authentication failed: "
  const RateLimitOpening := "Rate limit exceeded"
  const QuotaOpening := "Quota exceeded: "
  const ValidationOpening := "Validation error: "

  /** `Display::fmt` */
  function Display(e: ElevenLabsSTTError): string {
    match e
    case RequestError(c) => RequestOpening + c.message
    case ApiError(status, message) => ApiOpening + Decimal(status as nat) + "): " + message
    case ParseError(c) => ParseOpening + c.message
    case AuthenticationError(msg) => AuthenticationOpening + msg
    case RateLimitError(retryAfter, message) =>
      (match retryAfter
       case Some(seconds) => RateLimitOpening + " (retry in " + Decimal(seconds as nat) + "s): " + message
       case None => RateLimitOpening + ": " + message)
    case QuotaExceededError(msg) => QuotaOpening + msg
    case ValidationError(msg) => ValidationOpening + msg
  }

  /** `Error::source`: only the two variants that wrap a `reqwest::Error` expose it. */
  function Source(e: ElevenLabsSTTError): (c: Option<Cause>)
    ensures c.Some? <==> e.RequestError? || e.ParseError?
    ensures c.Some? ==> c.value == e.cause
  {
    match e
    case RequestError(cause) => Some(cause)
    case ParseError(cause) => Some(cause)
    case _ => None
  }

  /** A transport error without a status is kept, and is what `source()` returns. */
  lemma ClassifiedCauseIsSource(cause: Cause)
    ensures Source(Classify(None, cause)) == Some(cause)
    ensures forall code: u16 :: Source(Classify(Some(code), cause)).None?
  {
  }

  // ----- what Display shows -----

  /** The variants, without their payloads. */
  datatype Kind = Request | Api | Parse | Authentication | RateLimit | Quota | Validation

  function KindOf(e: ElevenLabsSTTError): Kind {
    match e
    case RequestError(_) => Request
    case ApiError(_, _) => Api
    case ParseError(_) => Parse
    case AuthenticationError(_) => Authentication
    case RateLimitError(_, _) => RateLimit
    case QuotaExceededError(_) => Quota
    case ValidationError(_) => Validation
  }

  /** The variant a displayed message names, read from its opening words. */
  function DisplayedKind(s: string): Option<Kind> {
    if StartsWith(s, RequestOpening) then Some(Request)
    else if StartsWith(s, ApiOpening) then Some(Api)
    else if StartsWith(s, ParseOpening) then Some(Parse)
    else if StartsWith(s, AuthenticationOpening) then Some(Authentication)
    else if StartsWith(s, RateLimitOpening) then Some(RateLimit)
    else if StartsWith(s, QuotaOpening) then Some(Quota)
    else if StartsWith(s, ValidationOpening) then Some(Validation)
    else None
  }

  lemma NotStartsWith(s: string, p: string, i: nat)
    requires i < |p| && i < |s| && s[i] != p[i]
    ensures !StartsWith(s, p)
  {
    if |p| <= |s| {
      assert s[..|p|][i] == s[i];
    }
  }

  /** Every displayed error names its own variant, so no two variants display alike. */
  lemma DisplayNamesKind(e: ElevenLabsSTTError)
    ensures DisplayedKind(Display(e)) == Some(KindOf(e))
  {
    var s := Display(e);
    match e
    case RequestError(c) =>
      StartsWithAppend(RequestOpening, c.message);
    case ApiError(status, message) =>
      assert s == ApiOpening + (Decimal(status as nat) + "): " + message);
      StartsWithAppend(ApiOpening, Decimal(status as nat) + "): " + message);
      NotStartsWith(s, RequestOpening, 0);
    case ParseError(c) =>
      StartsWithAppend(ParseOpening, c.message);
      NotStartsWith(s, RequestOpening, 0);
      NotStartsWith(s, ApiOpening, 0);
    case AuthenticationError(msg) =>
      StartsWithAppend(AuthenticationOpening, msg);
      NotStartsWith(s, RequestOpening, 0);
      NotStartsWith(s, ApiOpening, 1);
      NotStartsWith(s, ParseOpening, 0);
    case RateLimitError(retryAfter, message) =>
      var rest := if retryAfter.Some? then " (retry in " + Decimal(retryAfter.value as nat) + "s): " + message
                  else ": " + message;
      assert s == RateLimitOpening + rest;
      StartsWithAppend(RateLimitOpening, rest);
      NotStartsWith(s, RequestOpening, 1);
      NotStartsWith(s, ApiOpening, 0);
      NotStartsWith(s, ParseOpening, 0);
      NotStartsWith(s, AuthenticationOpening, 0);
    case QuotaExceededError(msg) =>
      StartsWithAppend(QuotaOpening, msg);
      NotStartsWith(s, RequestOpening, 0);
      NotStartsWith(s, ApiOpening, 0);
      NotStartsWith(s, ParseOpening, 0);
      NotStartsWith(s, AuthenticationOpening, 0);
      NotStartsWith(s, RateLimitOpening, 0);
    case ValidationError(msg) =>
      StartsWithAppend(ValidationOpening, msg);
      NotStartsWith(s, RequestOpening, 0);
      NotStartsWith(s, ApiOpening, 0);
      NotStartsWith(s, ParseOpening, 0);
      NotStartsWith(s, AuthenticationOpening, 0);
      NotStartsWith(s, RateLimitOpening, 0);
      NotStartsWith(s, QuotaOpening, 0);
  }

  /** `ApiError` shows its status in decimal between parentheses, then its message. */
  lemma DisplayApiError(status: u16, message: string)
    ensures Display(ApiError(status, message)) == "API error (" + Decimal(status as nat) + "): " + message
    ensures var s := Display(ApiError(status, message));
      exists numeral :: s == "API error (" + numeral + "): " + message && ParseDecimal(numeral) == Some(status as nat)
  {
    DecimalRoundTrip(status as nat);
  }

  /** A rate-limit message announces a retry delay exactly when it has one. */
  lemma DisplayRateLimit(retryAfter: Option<u64>, message: string)
    ensures var s := Display(RateLimitError(retryAfter, message));
      && (StartsWith(s, RateLimitOpening + " (retry in ") <==> retryAfter.Some?)
      && (retryAfter.Some? ==> Contains(s, "(retry in " + Decimal(retryAfter.value as nat) + "s)"))
      && (retryAfter.None? ==> s == RateLimitOpening + ": " + message)
  {
    match retryAfter
    case Some(seconds) => RateLimitWithDelay(seconds, message);
    case None => RateLimitWithoutDelay(message);
  }

  lemma RateLimitWithDelay(seconds: u64, message: string)
    ensures var s := Display(RateLimitError(Some(seconds), message));
      && StartsWith(s, RateLimitOpening + " (retry in ")
      && Contains(s, "(retry in " + Decimal(seconds as nat) + "s)")
  {
    var s := Display(RateLimitError(Some(seconds), message));
    var n := Decimal(seconds as nat);
    var opening := RateLimitOpening + " (retry in ";
    assert s == opening + (n + "s): " + message);
    StartsWithAppend(opening, n + "s): " + message);
    assert " (retry in " == " " + "(retry in ";
    assert s == (RateLimitOpening + " ") + ("(retry in " + n + "s)") + (": " + message);
    ContainsAppended(RateLimitOpening + " ", "(retry in " + n + "s)", ": " + message);
  }

  lemma RateLimitWithoutDelay(message: string)
    ensures var s := Display(RateLimitError(None, message));
      && !StartsWith(s, RateLimitOpening + " (retry in ")
      && s == RateLimitOpening + ": " + message
  {
    var s := Display(RateLimitError(None, message));
    assert s[19] == ':' && (RateLimitOpening + " (retry in ")[19] == ' ';
    NotStartsWith(s, RateLimitOpening + " (retry in ", 19);
  }

  /** A validation message mentions both that it is a validation error and its text. */
  lemma DisplayValidation(msg: string)
    ensures Contains(Display(ValidationError(msg)), "Validation error")
    ensures Contains(Display(ValidationError(msg)), msg)
  {
    var s := Display(ValidationError(msg));
    assert s == [] + "Validation error" + (": " + msg);
    ContainsAppended([], "Validation error", ": " + msg);
    assert s == "Validation error: " + msg + [];
    ContainsAppended("Validation error: ", msg, []);
  }
}
