# Solidtime.Api client core in Dafny

A model of the configuration, authentication and lifecycle core of the
Solidtime.Api .NET SDK. The core has three parts:

- **`SolidtimeClientOptions`**: the default values and `Validate()`.
  `Validate()` runs five checks in order, and the first one that fails raises
  its own `InvalidOperationException` message.
- **`AuthenticatedHttpClientHandler.SendAsync`**: the delegating handler that
  stamps and logs each request it is given.
  - It stamps `Authorization: Bearer <token>` on the request.
  - When Debug logging is enabled, it logs a request block and a response
    block. The `Authorization` header appears in the log only through a
    redacted template.
  - With Debug on, it reads both bodies as text for the log. The read of a
    non-empty body throws when its declared charset, with one pair of
    enclosing quotes removed, names no encoding. An empty body reads as ""
    without any lookup.
  - With Debug on, it then re-wraps both bodies as `StringContent`. The new
    body keeps the declared media type, or `application/json` when there is
    none. Its charset is the web name of the encoding the declared charset
    names, taken as it is (so `UTF8` comes back as `utf-8`), or `utf-8` when
    none is declared. The re-wrap throws when that charset names no encoding.
    After a successful read this can happen only for an empty body or a
    quoted charset.
  - It calls the inner transport at most once. With Debug on, a request body
    that cannot be read or re-wrapped is never sent.
- **`SolidtimeClient`**: the constructor gate (null check, then validation,
  and only then the `HttpClient`), and the `Dispose()` / `Dispose(bool)`
  state machine.

`SendAsync` is modelled as a pure function. It returns a `SendTrace` holding
three things:

- the outcome: a response, or the exception the handler raises itself;
- the requests handed to the inner transport, in order;
- the log events emitted, one constructor per `LoggerMessage` template.

Everything the handler cannot see is a parameter:

- the inner transport (`Request -> Response`);
- `Encoding.GetEncoding` (`string -> Option<Encoding>`, where `None` means it
  throws);
- `Uri.TryCreate` (`string -> Option<Uri>`).

Modules, one per file:

| file | module | contents |
|---|---|---|
| outcome.dfy | `Outcome` | `Option`, `Result` |
| text.dfy | `Text` | `string.IsNullOrWhiteSpace`, ordinal case-insensitive comparison, `string.Join` |
| options.dfy | `ClientOptions` | options, defaults, `Validate`, error messages |
| http.dfy | `HttpMessages` | headers, content, requests, responses, setting `Authorization` |
| handler.dfy | `AuthenticatedHandler` | log events and blocks, body re-wrap, `SendAsync` |
| client.dfy | `Client` | constructor gate, timeout ceiling, dispose machine, the client class |

A request's header collection is assumed well-formed: no two names are equal
ignoring case. `HttpHeaders` guarantees this for every request, so it is a
property of the type and not a demand on callers.

A request's body may be absent, but a response's never is: the platform gives
a response without a body an empty content object. The model writes that as
`NoContent` (empty text, no headers, no media type). So the handler's null
check before reading the response body always passes, and a bodyless
response still comes back re-wrapped as `application/json`.

## Model

| member | source | states |
|---|---|---|
| ClientOptions.Validate | Solidtime.Api/SolidtimeClientOptions.cs:44-71 | Validation succeeds exactly when all five checks pass. Each error is raised exactly when its own check fails and every earlier check passed, in this order: blank token, blank base URL, timeout ≤ 0, unparsable URL, scheme other than http or https. The invalid-URI error carries the rejected URL. |
| ClientOptions.DefaultsValidateIffTokenGiven | Solidtime.Api/SolidtimeClientOptions.cs:20-38 | With the default base URL, the defaults validate exactly when the token is not blank. The default timeout is positive, the default logger is not Debug-enabled, and unmapped JSON members are skipped. |
| ClientOptions.TokenCheckComesFirst | Solidtime.Api/SolidtimeClientOptions.cs:46-49 | A blank token is reported as "ApiToken is required", whatever else is wrong. |
| ClientOptions.MessageIdentifiesError | Solidtime.Api/SolidtimeClientOptions.cs:46-70 | Two errors with the same message are the same error, so the message names the failed check and, for a bad URI, the URL. |
| Text.EqualsIgnoreCaseCharwise | Solidtime.Api/AuthenticatedHttpClientHandler.cs:58 | Two names are equal ignoring case exactly when they have the same length and each pair of characters is equal after folding. |
| HttpMessages.SetAuthorization | Solidtime.Api/AuthenticatedHttpClientHandler.cs:43 | After stamping, the headers hold exactly one `Authorization` entry, whose only value is the stamped one. The names stay pairwise distinct ignoring case. The non-`Authorization` headers are unchanged, in order. No other header is introduced. |
| HttpMessages.StampedHeadersDifferOnlyInValue | Solidtime.Api/AuthenticatedHttpClientHandler.cs:43 | Stamping two different values gives collections of the same length with the same names in the same places, equal everywhere except the `Authorization` entry. |
| AuthenticatedHandler.NewHandler | Solidtime.Api/AuthenticatedHttpClientHandler.cs:22-28 | Null options are rejected with `ArgumentNullException`. Otherwise the handler keeps the options and captures their logger. |
| AuthenticatedHandler.Authenticate | Solidtime.Api/AuthenticatedHttpClientHandler.cs:43 | The request carries the bearer value of the token as its only `Authorization` value. Method, URI, body and every other header are untouched. |
| AuthenticatedHandler.RequestHeaderEvents | Solidtime.Api/AuthenticatedHttpClientHandler.cs:55-66 | One event per header, in collection order. `Authorization` (ignoring case) goes through the redacted template; every other header is logged as its values joined with ", ". |
| AuthenticatedHandler.RequestHeaderSection | Solidtime.Api/AuthenticatedHttpClientHandler.cs:52-67 | The "Headers:" line and the header events appear only when the collection is not empty. The section holds no block marker and no unredacted `Authorization`. |
| AuthenticatedHandler.RequestBodySection | Solidtime.Api/AuthenticatedHttpClientHandler.cs:69-73 | The body line appears exactly when the request has content, and it logs the body text. |
| AuthenticatedHandler.IntToString | Solidtime.Api/AuthenticatedHttpClientHandler.cs:166-167 | A status code renders as a non-empty decimal numeral: digits only for a non-negative code, a minus sign and digits otherwise. |
| AuthenticatedHandler.IntToStringRoundTrip | Solidtime.Api/AuthenticatedHttpClientHandler.cs:166-167 | Reading a rendered status code back gives the code, for every integer. |
| AuthenticatedHandler.DigitsRoundTrip | Solidtime.Api/AuthenticatedHttpClientHandler.cs:166-167 | The digits rendered for a natural number denote that number. |
| AuthenticatedHandler.StatusLineIdentifiesCode | Solidtime.Api/AuthenticatedHttpClientHandler.cs:166-167 | Two status lines with the same reason phrase render to the same text only for the same status code. |
| AuthenticatedHandler.Render | Solidtime.Api/AuthenticatedHttpClientHandler.cs:139-179 | Every rendered line is non-empty and opens with a box-drawing character: a top corner exactly for the two start markers, a bottom corner exactly for the two end markers, and a vertical bar exactly for every other event. |
| AuthenticatedHandler.RenderedBlockIsBox | Solidtime.Api/AuthenticatedHttpClientHandler.cs:139-179 | A sequence of events renders as one closed box exactly when it is a framed block: a start marker first, an end marker last, and no marker between. |
| AuthenticatedHandler.RenderedBlocksAreBoxes | Solidtime.Api/AuthenticatedHttpClientHandler.cs:46-135 | A complete request or response block renders as a closed box. The log left by a failed read or re-wrap (a head or a prelude) renders as a box that is never closed. |
| AuthenticatedHandler.RequestHead | Solidtime.Api/AuthenticatedHttpClientHandler.cs:48-67 | The events before the body is read open with the request start marker, hold at least the method and URI lines, contain no other marker, and never log `Authorization` unredacted. This is the log left behind when reading the body throws. |
| AuthenticatedHandler.RequestPrelude | Solidtime.Api/AuthenticatedHttpClientHandler.cs:48-73 | The events up to the body re-wrap open with the request start marker and contain no other marker. This is the log left behind when the re-wrap throws. |
| AuthenticatedHandler.RequestBlock | Solidtime.Api/AuthenticatedHttpClientHandler.cs:46-85 | The request block opens with the request start, closes with the request end, has no marker in between, and never logs `Authorization` through the plain template. |
| AuthenticatedHandler.RequestBlockOrder | Solidtime.Api/AuthenticatedHttpClientHandler.cs:48-84 | The request block is, in order: the start marker, the method, the URI (empty when absent), the header section, the body section, and the end marker. The head is that block up to the header section. |
| AuthenticatedHandler.ResponseHeaderEvents | Solidtime.Api/AuthenticatedHttpClientHandler.cs:98-109 | One event per response or content header, in the order the collection enumerates them, with the values joined by ", ". |
| AuthenticatedHandler.ResponseHeaderSection | Solidtime.Api/AuthenticatedHttpClientHandler.cs:95-110 | The section holds only the "Headers:" line and header lines. It is empty when there are neither transport nor content headers. Otherwise it is one "Headers:" line followed by one line per header. |
| AuthenticatedHandler.ResponseHeaderSectionOrder | Solidtime.Api/AuthenticatedHttpClientHandler.cs:97-109 | After the "Headers:" line come the transport headers in collection order, then the content headers, each with its values joined by ", ". |
| AuthenticatedHandler.ResponseBodySection | Solidtime.Api/AuthenticatedHttpClientHandler.cs:112-121 | The body line appears exactly when the response's body text is not blank. |
| AuthenticatedHandler.ResponseHead | Solidtime.Api/AuthenticatedHttpClientHandler.cs:92-110 | The events before the response body is read open with the response start marker, hold the status line, and contain no other marker. This is the log left behind when reading the body throws. |
| AuthenticatedHandler.ResponsePrelude | Solidtime.Api/AuthenticatedHttpClientHandler.cs:92-121 | The events up to the response re-wrap open with the response start marker and contain no other marker. This is the log left behind when the re-wrap throws. |
| AuthenticatedHandler.ResponseBlock | Solidtime.Api/AuthenticatedHttpClientHandler.cs:90-133 | The response block is framed by the response start and end markers, with no marker in between. |
| AuthenticatedHandler.ResponseBlockOrder | Solidtime.Api/AuthenticatedHttpClientHandler.cs:92-132 | The response block is, in order: the start marker, the status code with the reason phrase (empty when absent), the header section, the body section, and the end marker. The head is that block up to the header section. |
| AuthenticatedHandler.Unquote | Solidtime.Api/AuthenticatedHttpClientHandler.cs:72 | The name looked up for a charset is never longer than the declared one, and differs from it only by one pair of enclosing double quotes. |
| AuthenticatedHandler.UnquoteQuoted | Solidtime.Api/AuthenticatedHttpClientHandler.cs:72 | Unquoting a quoted non-empty charset name gives back the name. |
| AuthenticatedHandler.ReadAsString | Solidtime.Api/AuthenticatedHttpClientHandler.cs:72 | Reading a body fails exactly when it is not empty, declares a charset, and the unquoted charset names no encoding. The error names the declared charset. A successful read returns the body text. |
| AuthenticatedHandler.Rewrap | Solidtime.Api/AuthenticatedHttpClientHandler.cs:76-81 | The re-wrap fails exactly when a declared charset, taken as it is, names no encoding. Otherwise it keeps the text and uses the declared media type (or `application/json`) and the web name of the declared charset's encoding (or `utf-8`). The new body has one content header, `Content-Type`, rendered from that media type and charset. |
| AuthenticatedHandler.RewrapFailsAfterReadOnlyIfEmptyOrQuoted | Solidtime.Api/AuthenticatedHttpClientHandler.cs:72-80 | When the read succeeds and the re-wrap still fails, the body is empty or the declared charset is quoted. |
| AuthenticatedHandler.LoggingChangesOutcome | Solidtime.Api/AuthenticatedHttpClientHandler.cs:69-129 | A JSON request body declaring the quoted charset `"utf-8"`, and an empty body declaring an unknown charset, are both read without error. Both are sent as they are with Debug off, but with Debug on the call throws at the re-wrap. |
| AuthenticatedHandler.RewrapAsRead | Solidtime.Api/AuthenticatedHttpClientHandler.cs:76-81 | The corrected re-wrap fails exactly when the read fails, with the read's error. Otherwise it keeps the text and the media type (or `application/json`), and for a non-empty body uses the web name of the encoding the read used. |
| AuthenticatedHandler.RewrapAsReadAgrees | Solidtime.Api/AuthenticatedHttpClientHandler.cs:76-81 | Wherever the re-wrap as written succeeds after a read, on an unquoted or absent charset, the corrected re-wrap gives the same body. |
| AuthenticatedHandler.RewrapIdempotent | Solidtime.Api/AuthenticatedHttpClientHandler.cs:124-129 | Re-wrapping an already re-wrapped body changes nothing, provided the encoding lookup maps web names back to their encodings. |
| AuthenticatedHandler.RewrapRequest | Solidtime.Api/AuthenticatedHttpClientHandler.cs:69-82 | Only the request body is replaced, by its re-wrap. A request without a body is unchanged. It fails exactly when the body exists and either its read or its re-wrap fails; a failed read is reported first, with its own error. |
| AuthenticatedHandler.RewrapResponse | Solidtime.Api/AuthenticatedHttpClientHandler.cs:112-130 | Status, reason and headers are kept and the body is always re-wrapped, since a response's content is never null. It fails exactly when the read or the re-wrap of the body fails; a failed read is reported first, with its own error. |
| AuthenticatedHandler.BodylessResponseBecomesJson | Solidtime.Api/AuthenticatedHttpClientHandler.cs:112-129 | A response without a body is re-wrapped without fail, whatever the encoding lookup, into empty content with `Content-Type: application/json; charset=utf-8`. |
| AuthenticatedHandler.SendAsync | Solidtime.Api/AuthenticatedHttpClientHandler.cs:36-136 | A null request throws `ArgumentNullException` before anything is sent or logged. The inner transport is called at most once, and exactly once on success. With Debug off nothing is logged and the call succeeds. The log never shows `Authorization` unredacted. |
| AuthenticatedHandler.LoggedSend | Solidtime.Api/AuthenticatedHttpClientHandler.cs:46-135 | With Debug on, nothing is sent exactly when the request body cannot be read or re-wrapped. The log then stops before the body line when the read failed, and after it when the re-wrap failed. Otherwise the re-wrapped request is sent once and the caller gets the re-wrapped response. The log is the request block followed by the response block; when the response body fails, it is followed instead by the response head (failed read) or prelude (failed re-wrap). |
| AuthenticatedHandler.SentRequestIsAuthenticated | Solidtime.Api/AuthenticatedHttpClientHandler.cs:43-87 | The request sent carries the caller's method, URI, other headers and body text, plus the single bearer `Authorization` value. |
| AuthenticatedHandler.ReturnsInnerResponse | Solidtime.Api/AuthenticatedHttpClientHandler.cs:87-135 | On success the caller gets the inner response's status, reason, headers and body text. |
| AuthenticatedHandler.DebugOffPassesThrough | Solidtime.Api/AuthenticatedHttpClientHandler.cs:40-87 | With Debug off the stamped request is sent with its body untouched, the inner response is returned as it is, and nothing is logged. |
| AuthenticatedHandler.DebugLogDescribesExchange | Solidtime.Api/AuthenticatedHttpClientHandler.cs:46-133 | With Debug on and no failure, the log splits into a framed request block for the sent request and a framed response block for the received response. Both bodies are the re-wraps of the originals. |
| AuthenticatedHandler.AuthenticatedBlockListsHeaders | Solidtime.Api/AuthenticatedHttpClientHandler.cs:52-61 | A stamped request always logs the "Headers:" line and the redacted `Authorization` line. |
| AuthenticatedHandler.DebugRequestBodyFailure | Solidtime.Api/AuthenticatedHttpClientHandler.cs:69-81 | A request body that cannot be read throws before the send, with the log stopped before the body line. One that is read but cannot be re-wrapped throws before the send, with the log stopped after the body line. |
| AuthenticatedHandler.DebugResponseBodyFailure | Solidtime.Api/AuthenticatedHttpClientHandler.cs:112-129 | A failure after the single send comes from the response body. A failed read stops the response log before the body line; otherwise the re-wrap failed, and the log stops after the body section. The request block is closed either way. |
| AuthenticatedHandler.RequestLogIndependentOfToken | Solidtime.Api/AuthenticatedHttpClientHandler.cs:55-61 | The logged request block, the prelude and the head are the same whatever the token, so the credential cannot be read from the log. |
| AuthenticatedHandler.RenderedRequestLogIndependentOfToken | Solidtime.Api/AuthenticatedHttpClientHandler.cs:139-161 | The rendered text of the request block, and of the head, is the same whatever the token. |
| Client.Construct | Solidtime.Api/SolidtimeClient.cs:18-29 | Null options throw `ArgumentNullException`. Options that fail validation throw that validation error. A built client has a positive timeout and an http or https base address parsed from the base URL. Validated options build exactly when the timeout is within the `HttpClient` ceiling. |
| Client.ValidatedTimeoutCanStillBeRejected | Solidtime.Api/SolidtimeClient.cs:23-28 | A token, the default base URL and a 2147484-second timeout pass validation, and the constructor still throws on the timeout. |
| Client.ValidateWithTimeoutCeiling | Solidtime.Api/SolidtimeClientOptions.cs:56-59 | The bounded validator succeeds exactly when every original check passes and the timeout is at most `int.MaxValue` milliseconds. It reports the original errors unchanged. |
| Client.CeilingValidationBuilds | Solidtime.Api/SolidtimeClient.cs:23-29 | Options pass the bounded validator exactly when the constructor builds a client. |
| Client.DisposeState | Solidtime.Api/SolidtimeClient.cs:140-153 | A dispose always leaves the client disposed. An already-disposed client is left unchanged. On a client not yet disposed, the `HttpClient` is disposed exactly once when `disposing` is true and not at all when it is false. |
| Client.DisposedStaysPut | Solidtime.Api/SolidtimeClient.cs:142-145 | Once disposed, any further sequence of dispose calls changes nothing. |
| Client.HttpClientDisposedAtMostOnce | Solidtime.Api/SolidtimeClient.cs:130-153 | From a fresh client, any sequence of dispose calls disposes the `HttpClient` at most once. It is disposed exactly once when the first call passed `disposing = true`, and the client ends disposed exactly when some call was made. |
| Client.SolidtimeClient.Dispose | Solidtime.Api/SolidtimeClient.cs:130-134 | The public `Dispose()` changes the object's state as `Dispose(true)` does, and keeps the invariant that the `HttpClient` was disposed at most once and only after the client was marked disposed. |
| Client.SolidtimeClient.DisposeCore | Solidtime.Api/SolidtimeClient.cs:140-153 | `Dispose(bool)` on the object makes the transition that `DisposeState` describes, and keeps the same invariant. |
| Client.Create | Solidtime.Api/SolidtimeClient.cs:18-29 | A client object exists exactly when `Construct` succeeds. It is new, holds the constructed settings, starts undisposed, and satisfies the invariant. |

## Left out

- `AuthenticatedBackingOffHttpClientHandler`: the constructor wires this handler, whose source is not part of this model, so `Construct` stops at the settings it gives the `HttpClient`. The model does not show that the client's requests reach `AuthenticatedHttpClientHandler`, or how often; it models what that handler does with each request it is given.
- Refit wiring in the constructor: the JSON serializer settings and the thirteen API interface properties. This is configuration of third-party code with no logic of its own.
- The request and response DTOs, the API interfaces, `SolidtimeApiException` and the integration tests: these are data shapes and calls to a live server.
- Async and cancellation: the `CancellationToken` is passed through untouched and `await` adds no behaviour, so `SendAsync` is synchronous here.
- Exceptions from the inner transport: the transport is a total function, so such an exception would simply propagate.
- `ILogger`: reduced to one Debug-enabled flag. The source asks `IsEnabled(LogLevel.Debug)` twice, and both answers are taken to be the same.
- `ReadAsStringAsync`: a successful read is taken to give back the body text unchanged, since the model does not represent the bytes. Its failure on a charset with no encoding is modelled by `ReadAsString`; other decoding failures are not.
- `Text.EqualsIgnoreCase`: folds ASCII letters only. Header names are ASCII tokens, so `OrdinalIgnoreCase` agrees on them.
- Header collections: an ordered list of distinct names. The platform's internal storage and any reordering it does are not modelled.
- `Content-Length` and other headers the platform computes when it sends a body are not modelled. A re-wrap keeps only `Content-Type`.
- Client.Construct: on the timeout path the source has already created the `HttpClient` and its handler before the `Timeout` setter throws, and leaves them undisposed. The model's `TimeoutOutOfRange` error does not record that anything was created.
- HttpMessages.Content: the content headers are kept as the ordered list the collection enumerates, and the parsed `ContentType` beside them. How the platform parses the `Content-Type` text into that view is not modelled, and the two are assumed to agree. The re-wrap's `Content-Type` header is rendered from its media type as `type; charset=name`.
- `GC.SuppressFinalize` in `Dispose()`: the client has no finalizer, so it has no observable effect.
- The `HttpClient` disposal is a ghost counter on the class. What disposing the `HttpClient` does internally is outside the model.
- Client.SolidtimeClient.Dispose: its contract is stated with `old`, as a state change of the object. The functional `DisposeState` and `HttpClientDisposedAtMostOnce` carry the same facts as pure statements.
- `SendAsync`: requires a well-formed header collection, which `HttpHeaders` always provides.

## Findings

| source | as written | input that shows it | evidently intended | confidence | as-written member | corrected member |
|---|---|---|---|---|---|---|
| Solidtime.Api/SolidtimeClientOptions.cs:56-59 | `Validate()` only checks that `TimeoutSeconds` is positive. The constructor then sets `HttpClient.Timeout` to that many seconds, and the setter rejects anything above `int.MaxValue` milliseconds. | `TimeoutSeconds = 2147484` with a token and the default base URL passes `Validate()`, but `new SolidtimeClient(options)` throws `ArgumentOutOfRangeException` instead of the `InvalidOperationException` promised for invalid options. | Validation rejects every timeout the `HttpClient` would reject, so validated options always build a client. | not executed; medium | Client.ValidatedTimeoutCanStillBeRejected | Client.ValidateWithTimeoutCeiling |
| Solidtime.Api/AuthenticatedHttpClientHandler.cs:76-81 | With Debug on, the re-wrap looks up the declared charset as it is, while the read before it removes enclosing quotes and does no lookup for an empty body. A body the read accepts can therefore still make the re-wrap throw `ArgumentException`, so turning logging on changes the outcome of the call. | A request with body `{}` and `Content-Type: application/json; charset="utf-8"`, or an empty body with `charset=bogus`: sent unchanged with Debug off, but with Debug on the call throws before anything is sent. | The re-wrap uses the encoding the read used, or UTF-8 for an empty body, so enabling Debug logging never makes a readable body fail. | not executed; medium | AuthenticatedHandler.LoggingChangesOutcome | AuthenticatedHandler.RewrapAsRead |

The handler and the constructor are modelled as the code is written. Each
corrected member stands beside them with its intended property proved:
`ValidateWithTimeoutCeiling` with `CeilingValidationBuilds`, and
`RewrapAsRead` with `RewrapAsReadAgrees`.
