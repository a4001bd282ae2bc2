/** `SolidtimeClient`: the constructor gate (null check, then validation,
    then the HttpClient is built with the validated base address and
    timeout) and the two-state dispose machine. */
module Client {
  import opened Outcome
  import opened ClientOptions

  /** `HttpClient.Timeout` accepts at most `int.MaxValue` milliseconds
      (besides the infinite timeout, which the client never sets). */
  const MaxTimeoutMilliseconds: int := 0x7FFF_FFFF

  /** The exceptions the constructor can raise. */
  datatype ClientError =
    | ArgumentNull                             // null options
    | InvalidConfiguration(error: ConfigError) // `options.Validate()` threw
    | TimeoutOutOfRange                        // the `HttpClient.Timeout` setter threw

  /** The HttpClient as configured: base address and timeout in seconds. */
  datatype HttpClientSettings = HttpClientSettings(baseAddress: Uri, timeoutSeconds: int)

  /** `new SolidtimeClient(options)`: a null check, then `Validate()`, and
      only then the HttpClient, whose base address is the parsed base URL
      and whose timeout is `TimeoutSeconds` seconds. */
  function Construct(options: Option<Options>, tryCreate: UriParser): (r: Result<HttpClientSettings, ClientError>)
    ensures options.None? <==> r == Err(ArgumentNull)
    // a configuration that fails validation raises that validation error
    ensures options.Some? && Validate(options.value, tryCreate).Err? ==>
      r == Err(InvalidConfiguration(Validate(options.value, tryCreate).error))
    ensures r.Err? && r.error.InvalidConfiguration? ==>
      options.Some? && Validate(options.value, tryCreate) == Err(r.error.error)
    // a built client has a positive timeout and an http(s) base address
    ensures r.Ok? ==>
      && options.Some? && Valid(options.value, tryCreate)
      && r.value.timeoutSeconds == options.value.timeoutSeconds as int > 0
      && r.value.baseAddress == tryCreate(options.value.baseUrl.value).value
      && IsHttpScheme(r.value.baseAddress.scheme)
    ensures options.Some? && Valid(options.value, tryCreate) ==>
      (r.Ok? <==> options.value.timeoutSeconds as int * 1000 <= MaxTimeoutMilliseconds)
  {
    if options.None? then Err(ArgumentNull)
    else
      var o := options.value;
      match Validate(o, tryCreate)
      case Err(e) => Err(InvalidConfiguration(e))
      case Ok(_) =>
        var baseAddress := tryCreate(o.baseUrl.value).value;
        if o.timeoutSeconds as int * 1000 > MaxTimeoutMilliseconds then Err(TimeoutOutOfRange)
        else Ok(HttpClientSettings(baseAddress, o.timeoutSeconds as int))
  }

  /** As written, validation admits timeouts the HttpClient rejects: with
      the default base URL and a token, 2147484 seconds passes `Validate`
      and the constructor still throws. */
  lemma ValidatedTimeoutCanStillBeRejected(tryCreate: UriParser)
    requires tryCreate(DefaultBaseUrl) == Some(Uri("https"))
    ensures var o := WithDefaults(Some("token")).(timeoutSeconds := 2147484);
      && Validate(o, tryCreate).Ok?
      && Construct(Some(o), tryCreate) == Err(TimeoutOutOfRange)
  {
    assert !Text.IsWhiteSpace("token"[0]);
    assert !Text.IsWhiteSpace(DefaultBaseUrl[0]);
  }

  /** The configuration errors of the intended validator: those of
      `Validate`, and a timeout beyond what the HttpClient accepts. */
  datatype CheckedConfigError = Unvalidated(error: ConfigError) | TimeoutTooLarge

  /** `Validate` extended with the upper bound its positive-timeout check
      evidently meant to guarantee. */
  function ValidateWithTimeoutCeiling(o: Options, tryCreate: UriParser): (r: Result<(), CheckedConfigError>)
    ensures r.Ok? <==> Valid(o, tryCreate) && o.timeoutSeconds as int * 1000 <= MaxTimeoutMilliseconds
    ensures Validate(o, tryCreate).Err? ==> r == Err(Unvalidated(Validate(o, tryCreate).error))
  {
    match Validate(o, tryCreate)
    case Err(e) => Err(Unvalidated(e))
    case Ok(_) =>
      if o.timeoutSeconds as int * 1000 > MaxTimeoutMilliseconds then Err(TimeoutTooLarge) else Ok(())
  }

  /** With the bounded validator, every validated configuration builds: the
      constructor fails only before the transport exists. */
  lemma CeilingValidationBuilds(o: Options, tryCreate: UriParser)
    ensures ValidateWithTimeoutCeiling(o, tryCreate).Ok? <==> Construct(Some(o), tryCreate).Ok?
  {
  }

  /** The dispose state: `_disposed`, and how many times the HttpClient has
      been disposed. */
  datatype Lifecycle = Lifecycle(disposed: bool, httpClientDisposals: nat)

  /** A newly constructed client. */
  const Fresh: Lifecycle := Lifecycle(false, 0)

  /** `Dispose(bool disposing)`: a no-op once disposed; otherwise disposes
      the HttpClient when `disposing` and marks the client disposed. */
  function DisposeState(s: Lifecycle, disposing: bool): (r: Lifecycle)
    ensures r.disposed
    ensures s.disposed ==> r == s
    ensures r.httpClientDisposals <= s.httpClientDisposals + 1
    ensures !disposing ==> r.httpClientDisposals == s.httpClientDisposals
    ensures !s.disposed && disposing ==> r.httpClientDisposals == s.httpClientDisposals + 1
  {
    if s.disposed then s
    else Lifecycle(true, s.httpClientDisposals + if disposing then 1 else 0)
  }

  /** A sequence of `Dispose(disposing)` calls; the public `Dispose()` is
      `Dispose(true)`. */
  function DisposeAll(s: Lifecycle, calls: seq<bool>): Lifecycle
    decreases |calls|
  {
    if |calls| == 0 then s else DisposeAll(DisposeState(s, calls[0]), calls[1..])
  }

  /** Once disposed, further calls change nothing. */
  lemma {:induction false} DisposedStaysPut(s: Lifecycle, calls: seq<bool>)
    requires s.disposed
    ensures DisposeAll(s, calls) == s
    decreases |calls|
  {
    if |calls| > 0 {
      DisposedStaysPut(DisposeState(s, calls[0]), calls[1..]);
    }
  }

  /** Whatever calls a client receives, its HttpClient is disposed at most
      once, and exactly once when the first call was `Dispose(true)`. */
  lemma {:induction false} HttpClientDisposedAtMostOnce(calls: seq<bool>)
    ensures var s := DisposeAll(Fresh, calls);
      && s.httpClientDisposals <= 1
      && (s.disposed <==> |calls| > 0)
      && (s.httpClientDisposals == 1 <==> |calls| > 0 && calls[0])
  {
    if |calls| > 0 {
      DisposedStaysPut(DisposeState(Fresh, calls[0]), calls[1..]);
    }
  }

  /** The client object: its HttpClient settings, `_disposed`, and a ghost
      count of HttpClient disposals. */
  class SolidtimeClient {
    const settings: HttpClientSettings
    var disposed: bool
    ghost var httpClientDisposals: nat

    /** The HttpClient is disposed at most once, and only once `_disposed`
        is set. */
    ghost predicate Valid()
      reads this
    {
      httpClientDisposals <= (if disposed then 1 else 0)
    }

    constructor (settings: HttpClientSettings)
      ensures this.settings == settings
      ensures Lifecycle(disposed, httpClientDisposals) == Fresh
      ensures Valid()
    {
      this.settings := settings;
      disposed := false;
      httpClientDisposals := 0;
    }

    /** `Dispose()`: `Dispose(true)`. */
    method Dispose()
      modifies this
      requires Valid()
      ensures Valid()
      ensures Lifecycle(disposed, httpClientDisposals) ==
        DisposeState(Lifecycle(old(disposed), old(httpClientDisposals)), true)
    {
      DisposeCore(true);
    }

    /** `Dispose(bool disposing)`. */
    method DisposeCore(disposing: bool)
      modifies this
      requires Valid()
      ensures Valid()
      ensures Lifecycle(disposed, httpClientDisposals) ==
        DisposeState(Lifecycle(old(disposed), old(httpClientDisposals)), disposing)
    {
      if disposed {
        return;
      }
      if disposing {
        httpClientDisposals := httpClientDisposals + 1;
      }
      disposed := true;
    }
  }

  /** The constructor as a whole: the object exists only when `Construct`
      succeeds. */
  method Create(options: Option<Options>, tryCreate: UriParser) returns (r: Result<SolidtimeClient, ClientError>)
    ensures r.Ok? <==> Construct(options, tryCreate).Ok?
    ensures r.Err? ==> r.error == Construct(options, tryCreate).error
    ensures r.Ok? ==> fresh(r.value) && r.value.settings == Construct(options, tryCreate).value
    ensures r.Ok? ==> !r.value.disposed && r.value.httpClientDisposals == 0
    ensures r.Ok? ==> r.value.Valid()
  {
    match Construct(options, tryCreate)
    case Err(e) => r := Err(e);
    case Ok(settings) =>
      var client := new SolidtimeClient(settings);
      r := Ok(client);
  }
}
