/** `SolidtimeClientOptions`: the client's configuration record, its
    defaults, and the ordered five-check validator run before any transport
    is built. */
module ClientOptions {
  import opened Outcome
  import opened Text

  /** The C# `int` of `TimeoutSeconds`. */
  newtype Int32 = x: int | -0x8000_0000 <= x < 0x8000_0000

  /** `JsonUnmappedMemberHandling`: threaded through to the serializer only. */
  datatype UnmappedMemberHandling = Skip | Disallow

  /** The `ILogger`, reduced to the one question the client asks of it:
      whether Debug-level events are enabled. */
  datatype Logger = Logger(debugEnabled: bool)

  /** `NullLogger.Instance` enables no level. */
  const NullLogger: Logger := Logger(false)

  /** The mutable option properties; `None` models a property set to null. */
  datatype Options = Options(
    apiToken: Option<string>,
    baseUrl: Option<string>,
    timeoutSeconds: Int32,
    logger: Logger,
    unmappedMemberHandling: UnmappedMemberHandling)

  const DefaultBaseUrl: string := "https://app.solidtime.io/api"
  const DefaultTimeoutSeconds: Int32 := 30

  /** `new SolidtimeClientOptions { ApiToken = apiToken }`: the required token,
      every other property at its initialiser. */
  function WithDefaults(apiToken: Option<string>): Options {
    Options(apiToken, Some(DefaultBaseUrl), DefaultTimeoutSeconds, NullLogger, Skip)
  }

  /** What `Uri.TryCreate(s, UriKind.Absolute, out uri)` yields: only the
      scheme is consulted by the client. */
  datatype Uri = Uri(scheme: string)

  /** `Uri.TryCreate` with `UriKind.Absolute`, left abstract: `None` when the
      string is not an absolute URI. */
  type UriParser = string -> Option<Uri>

  /** The `InvalidOperationException`s `Validate` throws, one per check. */
  datatype ConfigError =
    | TokenRequired
    | BaseUrlRequired
    | TimeoutNotPositive
    | InvalidUri(url: string)
    | UnsupportedScheme

  /** The exception message of each configuration error. */
  function Message(e: ConfigError): string {
    match e
    case TokenRequired => "ApiToken is required"
    case BaseUrlRequired => "BaseUrl is required"
    case TimeoutNotPositive => "TimeoutSeconds must be greater than 0"
    case InvalidUri(url) => "BaseUrl '" + url + "' is not a valid URI"
    case UnsupportedScheme => "BaseUrl must use http or https scheme"
  }

  predicate IsHttpScheme(scheme: string) {
    scheme == "https" || scheme == "http"
  }

  /** The five requirements taken together, independent of the order in
      which `Validate` tests them. */
  predicate Valid(o: Options, tryCreate: UriParser) {
    && !NullOrWhiteSpace(o.apiToken)
    && !NullOrWhiteSpace(o.baseUrl)
    && o.timeoutSeconds > 0
    && tryCreate(o.baseUrl.value).Some?
    && IsHttpScheme(tryCreate(o.baseUrl.value).value.scheme)
  }

  /** `Validate()`: the first failing check decides the error; success means
      every check passed. It reads the options and returns; nothing of `o`
      can change. */
  function Validate(o: Options, tryCreate: UriParser): (r: Result<(), ConfigError>)
    ensures r.Ok? <==> Valid(o, tryCreate)
    ensures r == Err(TokenRequired) <==> NullOrWhiteSpace(o.apiToken)
    ensures r == Err(BaseUrlRequired) <==>
      !NullOrWhiteSpace(o.apiToken) && NullOrWhiteSpace(o.baseUrl)
    ensures r == Err(TimeoutNotPositive) <==>
      !NullOrWhiteSpace(o.apiToken) && !NullOrWhiteSpace(o.baseUrl) && o.timeoutSeconds <= 0
    ensures (r.Err? && r.error.InvalidUri?) <==>
      && !NullOrWhiteSpace(o.apiToken) && !NullOrWhiteSpace(o.baseUrl) && o.timeoutSeconds > 0
      && tryCreate(o.baseUrl.value).None?
    ensures r.Err? && r.error.InvalidUri? ==> r.error.url == o.baseUrl.value
    ensures r == Err(UnsupportedScheme) <==>
      && !NullOrWhiteSpace(o.apiToken) && !NullOrWhiteSpace(o.baseUrl) && o.timeoutSeconds > 0
      && tryCreate(o.baseUrl.value).Some? && !IsHttpScheme(tryCreate(o.baseUrl.value).value.scheme)
  {
    if NullOrWhiteSpace(o.apiToken) then Err(TokenRequired)
    else if NullOrWhiteSpace(o.baseUrl) then Err(BaseUrlRequired)
    else if o.timeoutSeconds <= 0 then Err(TimeoutNotPositive)
    else match tryCreate(o.baseUrl.value)
      case None => Err(InvalidUri(o.baseUrl.value))
      case Some(uri) =>
        if uri.scheme != "https" && uri.scheme != "http" then Err(UnsupportedScheme)
        else Ok(())
  }

  /** With the default base URL (which the platform parses as an absolute
      https URI) the defaults pass validation exactly when a token is given;
      the default logger emits no debug events and unmapped JSON members are
      skipped. */
  lemma DefaultsValidateIffTokenGiven(apiToken: Option<string>, tryCreate: UriParser)
    requires tryCreate(DefaultBaseUrl).Some? && tryCreate(DefaultBaseUrl).value.scheme == "https"
    ensures Validate(WithDefaults(apiToken), tryCreate).Ok? <==> !NullOrWhiteSpace(apiToken)
    ensures WithDefaults(apiToken).timeoutSeconds > 0
    ensures !WithDefaults(apiToken).logger.debugEnabled
    ensures WithDefaults(apiToken).unmappedMemberHandling == Skip
  {
    assert !IsWhiteSpace(DefaultBaseUrl[0]);
  }

  /** A blank token is reported even when later checks would fail too. */
  lemma TokenCheckComesFirst(o: Options, tryCreate: UriParser)
    requires NullOrWhiteSpace(o.apiToken)
    ensures Validate(o, tryCreate) == Err(TokenRequired)
    ensures Message(Validate(o, tryCreate).error) == "ApiToken is required"
  {
  }

  /** Distinct errors have distinct messages, so a message identifies the
      failed check (and, for a malformed URI, the rejected URL). */
  lemma {:induction false} MessageIdentifiesError(e1: ConfigError, e2: ConfigError)
    ensures Message(e1) == Message(e2) ==> e1 == e2
  {
    var suffix := "' is not a valid URI";
    if e1.InvalidUri? && e2.InvalidUri? {
      var m := Message(e1);
      if m == Message(e2) {
        assert m == "BaseUrl '" + e1.url + suffix && m == "BaseUrl '" + e2.url + suffix;
        assert e1.url == m[9..|m| - |suffix|] == e2.url;
      }
    } else if e1.InvalidUri? {
      assert Message(e1)[8] == '\'' != Message(e2)[8];
    } else if e2.InvalidUri? {
      assert Message(e2)[8] == '\'' != Message(e1)[8];
    } else if e1 != e2 {
      assert Message(e1)[0] != Message(e2)[0] || |Message(e1)| != |Message(e2)|;
    }
  }
}
