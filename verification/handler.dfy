/** `AuthenticatedHttpClientHandler`: the delegating handler that stamps the
    bearer token on every request and, when Debug logging is enabled, logs
    the exchange with the credential redacted, re-wrapping both bodies so
    they stay readable after the log read them. `SendAsync` is modelled as a
    pure function returning everything the call does: its outcome, the
    requests handed to the inner transport, and the log events emitted. */
module AuthenticatedHandler {
  import opened Outcome
  import opened Text
  import opened ClientOptions
  import opened HttpMessages

  /** The `LoggerMessage` events of the handler, one constructor per template. */
  datatype LogEvent =
    | RequestStart
    | RequestMethod(verb: string)
    | RequestUri(uri: string)
    | RequestHeadersStart
    | RequestHeaderRedacted(name: string)
    | RequestHeader(name: string, value: string)
    | RequestBody(body: string)
    | RequestEnd
    | ResponseStart
    | ResponseStatus(statusCode: int, reasonPhrase: string)
    | ResponseHeadersStart
    | ResponseHeader(name: string, value: string)
    | ResponseBody(body: string)
    | ResponseEnd

  /** The lines that open and close a logged block; both blocks close alike. */
  const RequestTopLine: string := "┌" + "─ HTTP Request ─────────────────────────────────"
  const ResponseTopLine: string := "┌" + "─ HTTP Response ────────────────────────────────"
  const BottomLine: string := "└" + "────────────────────────────────────────────────"

  /** The rendered text of each event. The redacted template has no slot for
      the header's value. Every line opens with a box-drawing character: a
      top corner for the start markers, a bottom corner for the end markers,
      and a vertical bar for everything logged between them. */
  function Render(e: LogEvent): (r: string)
    ensures |r| > 0
    ensures r[0] == '┌' <==> e.RequestStart? || e.ResponseStart?
    ensures r[0] == '└' <==> e.RequestEnd? || e.ResponseEnd?
    ensures r[0] == '│' <==> !IsMarker(e)
  {
    match e
    case RequestStart => RequestTopLine
    case RequestMethod(verb) => "│ Method: " + verb
    case RequestUri(uri) => "│ URI: " + uri
    case RequestHeadersStart => "│ Headers:"
    case RequestHeaderRedacted(name) => "│   " + name + ": Bearer ***REDACTED***"
    case RequestHeader(name, value) => "│   " + name + ": " + value
    case RequestBody(body) => "│ Body: " + body
    case RequestEnd => BottomLine
    case ResponseStart => ResponseTopLine
    case ResponseStatus(code, reason) => "│ Status: " + IntToString(code) + " " + reason
    case ResponseHeadersStart => "│ Headers:"
    case ResponseHeader(name, value) => "│   " + name + ": " + value
    case ResponseBody(body) => "│ Body: " + body
    case ResponseEnd => BottomLine
  }

  /** Decimal rendering of a status code: a minus sign for a negative
      number, then its digits, most significant first. */
  function IntToString(n: int): (r: string)
    ensures |r| > 0
    ensures n >= 0 ==> IsDigits(r)
    ensures n < 0 ==> r[0] == '-' && IsDigits(r[1..])
    decreases if n < 0 then 1 - n else n
  {
    if n < 0 then "-" + IntToString(-n)
    else if n < 10 then [(('0' as int) + n) as char]
    else IntToString(n / 10) + IntToString(n % 10)
  }

  /** A non-empty run of decimal digits. */
  predicate IsDigits(s: string) {
    |s| > 0 && forall i :: 0 <= i < |s| ==> '0' <= s[i] <= '9'
  }

  /** The number a run of decimal digits denotes. */
  function DigitsValue(s: string): nat
    decreases |s|
  {
    if |s| == 0 then 0
    else 10 * DigitsValue(s[..|s| - 1]) + (if '0' <= s[|s| - 1] <= '9' then s[|s| - 1] as int - '0' as int else 0)
  }

  /** Reading back a rendered number: an optional minus sign, then digits. */
  function ParseInt(s: string): int {
    if |s| > 0 && s[0] == '-' then -(DigitsValue(s[1..]) as int) else DigitsValue(s)
  }

  /** The digits of a natural number read back as that number. */
  lemma {:induction false} DigitsRoundTrip(n: nat)
    ensures DigitsValue(IntToString(n)) == n
    decreases n
  {
    if n >= 10 {
      var hi, lo := IntToString(n / 10), IntToString(n % 10);
      DigitsRoundTrip(n / 10);
      assert |lo| == 1;
      assert (hi + lo)[..|hi + lo| - 1] == hi;
    }
  }

  /** Every rendered number reads back as itself. */
  lemma IntToStringRoundTrip(n: int)
    ensures ParseInt(IntToString(n)) == n
  {
    if n < 0 {
      assert IntToString(n)[1..] == IntToString(-n);
      DigitsRoundTrip(-n);
    } else {
      DigitsRoundTrip(n);
    }
  }

  /** The rendered status line names its code unambiguously: two status
      lines with the same reason phrase render alike only for the same code. */
  lemma StatusLineIdentifiesCode(code1: int, code2: int, reason: string)
    requires Render(ResponseStatus(code1, reason)) == Render(ResponseStatus(code2, reason))
    ensures code1 == code2
  {
    var prefix := "│ Status: ";
    var a, b := IntToString(code1), IntToString(code2);
    var x, y := prefix + a + " " + reason, prefix + b + " " + reason;
    assert x == Render(ResponseStatus(code1, reason)) && y == Render(ResponseStatus(code2, reason));
    assert |a| == |b|;
    assert x[|prefix|..|prefix| + |a|] == a;
    assert y[|prefix|..|prefix| + |b|] == b;
    IntToStringRoundTrip(code1);
    IntToStringRoundTrip(code2);
  }

  /** The rendered lines of a sequence of events, in order. */
  function RenderAll(events: seq<LogEvent>): seq<string> {
    seq(|events|, i requires 0 <= i < |events| => Render(events[i]))
  }

  /** A rendered line opens a box, closes one, or sits inside one. */
  predicate BoxTop(line: string) { |line| > 0 && line[0] == '┌' }
  predicate BoxBottom(line: string) { |line| > 0 && line[0] == '└' }
  predicate BoxSide(line: string) { |line| > 0 && line[0] == '│' }

  /** The rendered lines draw one box: a top corner first, a bottom corner
      last, and a vertical bar on every line between. */
  predicate Boxed(lines: seq<string>) {
    && |lines| >= 2
    && BoxTop(lines[0])
    && BoxBottom(lines[|lines| - 1])
    && InnerSides(lines)
  }

  /** Every line strictly between the first and the last is a side line. */
  predicate InnerSides(lines: seq<string>) {
    forall i :: 0 < i < |lines| - 1 ==> BoxSide(lines[i])
  }

  lemma RenderedLineKind(e: LogEvent)
    ensures BoxTop(Render(e)) <==> e.RequestStart? || e.ResponseStart?
    ensures BoxBottom(Render(e)) <==> e.RequestEnd? || e.ResponseEnd?
    ensures BoxSide(Render(e)) <==> !IsMarker(e)
  {
  }

  /** The rendered lines draw one box exactly when the events form one
      framed block. */
  lemma RenderedBlockIsBox(block: seq<LogEvent>)
    ensures Boxed(RenderAll(block)) <==> FramedBlock(block)
  {
    if |block| >= 2 {
      RenderedEnds(block);
      RenderedInnerLines(block);
    }
  }

  lemma RenderedEnds(block: seq<LogEvent>)
    requires |block| >= 2
    ensures var lines, last := RenderAll(block), |block| - 1;
      && |lines| == |block|
      && (BoxTop(lines[0]) <==> block[0].RequestStart? || block[0].ResponseStart?)
      && (BoxBottom(lines[last]) <==> block[last].RequestEnd? || block[last].ResponseEnd?)
  {
    var lines, last := RenderAll(block), |block| - 1;
    RenderedLineKind(block[0]);
    RenderedLineKind(block[last]);
    assert lines[0] == Render(block[0]) && lines[last] == Render(block[last]);
  }

  lemma RenderedInnerLines(block: seq<LogEvent>)
    requires |block| >= 2
    ensures InnerSides(RenderAll(block)) <==> NoMarkers(block[1..|block| - 1])
  {
    var lines, last := RenderAll(block), |block| - 1;
    var inner := block[1..last];
    forall j | 0 <= j < |inner|
      ensures BoxSide(lines[j + 1]) <==> !IsMarker(inner[j])
    {
      RenderedLineKind(inner[j]);
      assert lines[j + 1] == Render(inner[j]);
    }
    if InnerSides(lines) {
      forall j | 0 <= j < |inner| ensures !IsMarker(inner[j]) {
        assert BoxSide(lines[j + 1]);
      }
    }
    if NoMarkers(inner) {
      forall i | 0 < i < last ensures BoxSide(lines[i]) {
        assert !IsMarker(inner[i - 1]);
      }
    }
  }

  /** The events that open and close a logged block. */
  predicate IsMarker(e: LogEvent) {
    e.RequestStart? || e.RequestEnd? || e.ResponseStart? || e.ResponseEnd?
  }

  /** `block` is a logged block of either kind: a start marker first, an
      end marker last, and no marker between. */
  predicate FramedBlock(block: seq<LogEvent>) {
    && |block| >= 2
    && (block[0].RequestStart? || block[0].ResponseStart?)
    && (block[|block| - 1].RequestEnd? || block[|block| - 1].ResponseEnd?)
    && NoMarkers(block[1..|block| - 1])
  }

  /** `block` is a logged block that opens with `start` and closes with `end`. */
  predicate Framed(block: seq<LogEvent>, start: LogEvent, end: LogEvent) {
    && FramedBlock(block)
    && block[0] == start
    && block[|block| - 1] == end
  }

  /** How one request header is logged: `Authorization` through the
      redacted template, every other header as its values joined by ", ". */
  function RequestHeaderEvent(h: Header): LogEvent {
    if IsAuthorization(h.name) then RequestHeaderRedacted(h.name)
    else RequestHeader(h.name, Join(", ", h.values))
  }

  /** The `foreach` over `request.Headers`. */
  function RequestHeaderEvents(hs: Headers): (r: seq<LogEvent>)
    ensures |r| == |hs|
    ensures forall i :: 0 <= i < |hs| ==> r[i] == RequestHeaderEvent(hs[i])
    decreases |hs|
  {
    if |hs| == 0 then [] else [RequestHeaderEvent(hs[0])] + RequestHeaderEvents(hs[1..])
  }

  /** The `foreach` over response or content headers. */
  function ResponseHeaderEvents(hs: Headers): (r: seq<LogEvent>)
    ensures |r| == |hs|
    ensures forall i :: 0 <= i < |hs| ==> r[i] == ResponseHeaderEvent(hs[i])
    ensures ResponseHeaderLines(r)
    decreases |hs|
  {
    if |hs| == 0 then [] else [ResponseHeaderEvent(hs[0])] + ResponseHeaderEvents(hs[1..])
  }

  /** No event of `s` opens or closes a block. */
  predicate NoMarkers(s: seq<LogEvent>) {
    forall i :: 0 <= i < |s| ==> !IsMarker(s[i])
  }

  /** No event of `s` logs the `Authorization` header through the plain template. */
  predicate Redacted(s: seq<LogEvent>) {
    forall i :: 0 <= i < |s| && s[i].RequestHeader? ==> !IsAuthorization(s[i].name)
  }

  /** Every event of `s` is a line of the response's header section. */
  predicate ResponseHeaderLines(s: seq<LogEvent>) {
    forall i :: 0 <= i < |s| ==> s[i].ResponseHeadersStart? || s[i].ResponseHeader?
  }

  lemma ResponseHeaderLinesConcat(a: seq<LogEvent>, b: seq<LogEvent>)
    requires ResponseHeaderLines(a) && ResponseHeaderLines(b)
    ensures ResponseHeaderLines(a + b)
  {
    forall i | 0 <= i < |a + b|
      ensures (a + b)[i].ResponseHeadersStart? || (a + b)[i].ResponseHeader?
    {
      if i < |a| {
        assert (a + b)[i] == a[i];
      } else {
        assert (a + b)[i] == b[i - |a|];
      }
    }
  }

  lemma ResponseHeaderLinesClean(s: seq<LogEvent>)
    requires ResponseHeaderLines(s)
    ensures NoMarkers(s) && Redacted(s)
  {
  }

  lemma RedactedConcat(a: seq<LogEvent>, b: seq<LogEvent>)
    requires Redacted(a) && Redacted(b)
    ensures Redacted(a + b)
  {
    forall i | 0 <= i < |a + b| && (a + b)[i].RequestHeader?
      ensures !IsAuthorization((a + b)[i].name)
    {
      if i < |a| {
        assert (a + b)[i] == a[i];
      } else {
        assert (a + b)[i] == b[i - |a|];
      }
    }
  }

  lemma NoMarkersConcat(a: seq<LogEvent>, b: seq<LogEvent>)
    requires NoMarkers(a) && NoMarkers(b)
    ensures NoMarkers(a + b)
  {
    forall i | 0 <= i < |a + b|
      ensures !IsMarker((a + b)[i])
    {
      if i < |a| {
        assert (a + b)[i] == a[i];
      } else {
        assert (a + b)[i] == b[i - |a|];
      }
    }
  }

  /** The "Headers:" line and one event per request header, logged only
      when the collection is not empty. */
  function RequestHeaderSection(hs: Headers): (r: seq<LogEvent>)
    ensures NoMarkers(r) && Redacted(r)
    ensures |hs| > 0 ==> |r| == |hs| + 1 && r[0] == RequestHeadersStart
    ensures |hs| > 0 ==> forall i :: 0 <= i < |hs| ==> r[i + 1] == RequestHeaderEvent(hs[i])
    ensures |hs| == 0 ==> r == []
  {
    if |hs| > 0 then [RequestHeadersStart] + RequestHeaderEvents(hs) else []
  }

  /** The body line of the request block, when there is a body. */
  function RequestBodySection(q: Request): (r: seq<LogEvent>)
    ensures NoMarkers(r) && Redacted(r)
    ensures q.content.Some? <==> |r| == 1
    ensures q.content.Some? ==> r[0] == RequestBody(q.content.value.text)
    ensures q.content.None? ==> r == []
  {
    if q.content.Some? then [RequestBody(q.content.value.text)] else []
  }

  /** The request events before the body is read: start, method, URI,
      headers. This is all that is logged when the body cannot be read. */
  function RequestHead(q: Request): (r: seq<LogEvent>)
    ensures Redacted(r)
    ensures |r| >= 3 && r[0] == RequestStart && NoMarkers(r[1..])
  {
    var opening := [RequestMethod(q.verb), RequestUri(q.uri.GetOr(""))];
    var headers := RequestHeaderSection(q.headers);
    NoMarkersConcat(opening, headers);
    RedactedConcat(opening, headers);
    RedactedConcat([RequestStart], opening + headers);
    assert ([RequestStart] + (opening + headers))[1..] == opening + headers;
    [RequestStart] + (opening + headers)
  }

  /** The request events up to and including the body line, the point where
      the re-wrap of the body can still throw: opened, never closed. */
  function RequestPrelude(q: Request): (r: seq<LogEvent>)
    ensures Redacted(r)
    ensures |r| >= 1 && r[0] == RequestStart && NoMarkers(r[1..])
  {
    var head := RequestHead(q);
    var body := RequestBodySection(q);
    RedactedConcat(head, body);
    NoMarkersConcat(head[1..], body);
    assert (head + body)[1..] == head[1..] + body;
    head + body
  }

  /** The complete request block, framed by its start and end events, with
      `Authorization` logged only through the redacted template. */
  function RequestBlock(q: Request): (r: seq<LogEvent>)
    ensures Framed(r, RequestStart, RequestEnd)
    ensures Redacted(r)
  {
    var prelude := RequestPrelude(q);
    RedactedConcat(prelude, [RequestEnd]);
    assert forall i :: 0 < i < |prelude| ==> (prelude + [RequestEnd])[i] == prelude[1..][i - 1];
    prelude + [RequestEnd]
  }

  /** The order of the request block: method, URI (empty when absent), the
      header section, the body section; the head stops before the body. */
  lemma RequestBlockOrder(q: Request)
    ensures RequestHead(q) ==
      [RequestStart, RequestMethod(q.verb), RequestUri(q.uri.GetOr(""))] + RequestHeaderSection(q.headers)
    ensures RequestBlock(q) ==
      [RequestStart, RequestMethod(q.verb), RequestUri(q.uri.GetOr(""))]
      + RequestHeaderSection(q.headers)
      + RequestBodySection(q)
      + [RequestEnd]
  {
    var opening := [RequestMethod(q.verb), RequestUri(q.uri.GetOr(""))];
    var headers := RequestHeaderSection(q.headers);
    RequestBlockUnfolds(q);
    PrependRegroups(RequestStart, opening, headers);
  }

  /** Putting `e` in front of `a + b` is putting `[e] + a` in front of `b`. */
  lemma PrependRegroups(e: LogEvent, a: seq<LogEvent>, b: seq<LogEvent>)
    ensures [e] + (a + b) == ([e] + a) + b
    ensures |a| == 1 ==> [e] + a == [e, a[0]]
    ensures |a| == 2 ==> [e] + a == [e, a[0], a[1]]
  {
  }

  lemma RequestBlockUnfolds(q: Request)
    ensures RequestHead(q) ==
      [RequestStart] + ([RequestMethod(q.verb), RequestUri(q.uri.GetOr(""))] + RequestHeaderSection(q.headers))
    ensures RequestPrelude(q) == RequestHead(q) + RequestBodySection(q)
    ensures RequestBlock(q) == RequestPrelude(q) + [RequestEnd]
  {
  }

  /** How one response or content header is logged: its values joined by ", ". */
  function ResponseHeaderEvent(h: Header): LogEvent {
    ResponseHeader(h.name, Join(", ", h.values))
  }

  /** The header lines of the response block: transport headers, then
      content headers, under one "Headers:" line that appears only when
      there is at least one of either. */
  function ResponseHeaderSection(transport: Headers, content: Headers): (r: seq<LogEvent>)
    ensures ResponseHeaderLines(r)
    ensures |transport| == 0 && |content| == 0 ==> r == []
    ensures |transport| > 0 || |content| > 0 ==>
      |r| == 1 + |transport| + |content| && r[0] == ResponseHeadersStart
  {
    if |transport| > 0 || |content| > 0 then
      var a, b := ResponseHeaderEvents(transport), ResponseHeaderEvents(content);
      ResponseHeaderLinesConcat([ResponseHeadersStart], a);
      ResponseHeaderLinesConcat([ResponseHeadersStart] + a, b);
      [ResponseHeadersStart] + a + b
    else []
  }

  /** The order of the response header lines: every transport header, in
      collection order, then every content header. */
  lemma ResponseHeaderSectionOrder(transport: Headers, content: Headers)
    requires |transport| > 0 || |content| > 0
    ensures var r := ResponseHeaderSection(transport, content);
      && (forall i :: 0 <= i < |transport| ==> r[1 + i] == ResponseHeaderEvent(transport[i]))
      && (forall i :: 0 <= i < |content| ==> r[1 + |transport| + i] == ResponseHeaderEvent(content[i]))
  {
    var a, b := ResponseHeaderEvents(transport), ResponseHeaderEvents(content);
    var r := ResponseHeaderSection(transport, content);
    assert r == ([ResponseHeadersStart] + a) + b;
    assert forall i :: 0 <= i < |a| ==> r[1 + i] == a[i];
    assert forall i :: 0 <= i < |b| ==> r[1 + |a| + i] == b[i];
  }

  /** The body line of the response block: only a body that is not blank is logged. */
  function ResponseBodySection(p: Response): (r: seq<LogEvent>)
    ensures NoMarkers(r) && Redacted(r)
    ensures !NullOrWhiteSpace(Some(p.content.text)) <==> |r| == 1
    ensures |r| == 1 ==> r[0] == ResponseBody(p.content.text)
    ensures |r| != 1 ==> r == []
  {
    if !NullOrWhiteSpace(Some(p.content.text)) then [ResponseBody(p.content.text)] else []
  }

  /** The response events before the body is read: start, status, headers.
      This is all that is logged of the response when its body cannot be
      read. */
  function ResponseHead(p: Response): (r: seq<LogEvent>)
    ensures Redacted(r)
    ensures |r| >= 2 && r[0] == ResponseStart && NoMarkers(r[1..])
  {
    var status := [ResponseStatus(p.statusCode, p.reasonPhrase.GetOr(""))];
    var headers := ResponseHeaderSection(p.headers, p.content.headers);
    ResponseHeaderLinesClean(headers);
    NoMarkersConcat(status, headers);
    RedactedConcat(status, headers);
    RedactedConcat([ResponseStart], status + headers);
    assert ([ResponseStart] + (status + headers))[1..] == status + headers;
    [ResponseStart] + (status + headers)
  }

  /** The response events up to and including the body line, the point
      where the re-wrap of the body can still throw: opened, never closed. */
  function ResponsePrelude(p: Response): (r: seq<LogEvent>)
    ensures Redacted(r)
    ensures |r| >= 1 && r[0] == ResponseStart && NoMarkers(r[1..])
  {
    var head := ResponseHead(p);
    var body := ResponseBodySection(p);
    RedactedConcat(head, body);
    NoMarkersConcat(head[1..], body);
    assert (head + body)[1..] == head[1..] + body;
    head + body
  }

  /** The complete response block, framed by its start and end events. */
  function ResponseBlock(p: Response): (r: seq<LogEvent>)
    ensures Framed(r, ResponseStart, ResponseEnd)
    ensures Redacted(r)
  {
    var prelude := ResponsePrelude(p);
    RedactedConcat(prelude, [ResponseEnd]);
    assert forall i :: 0 < i < |prelude| ==> (prelude + [ResponseEnd])[i] == prelude[1..][i - 1];
    prelude + [ResponseEnd]
  }

  /** The order of the response block: the status line with the reason
      phrase (empty when absent), the header section, the body section; the
      head stops before the body. */
  lemma ResponseBlockOrder(p: Response)
    ensures ResponseHead(p) ==
      [ResponseStart, ResponseStatus(p.statusCode, p.reasonPhrase.GetOr(""))]
      + ResponseHeaderSection(p.headers, p.content.headers)
    ensures ResponseBlock(p) ==
      [ResponseStart, ResponseStatus(p.statusCode, p.reasonPhrase.GetOr(""))]
      + ResponseHeaderSection(p.headers, p.content.headers)
      + ResponseBodySection(p)
      + [ResponseEnd]
  {
    var status := [ResponseStatus(p.statusCode, p.reasonPhrase.GetOr(""))];
    var headers := ResponseHeaderSection(p.headers, p.content.headers);
    ResponseBlockUnfolds(p);
    PrependRegroups(ResponseStart, status, headers);
  }

  lemma ResponseBlockUnfolds(p: Response)
    ensures ResponseHead(p) ==
      [ResponseStart]
      + ([ResponseStatus(p.statusCode, p.reasonPhrase.GetOr(""))]
         + ResponseHeaderSection(p.headers, p.content.headers))
    ensures ResponsePrelude(p) == ResponseHead(p) + ResponseBodySection(p)
    ensures ResponseBlock(p) == ResponsePrelude(p) + [ResponseEnd]
  {
  }

  /** `ContentType?.CharSet`: the declared charset, if any. */
  function DeclaredCharSet(c: Content): Option<string> {
    if c.contentType.Some? then c.contentType.value.charSet else None
  }

  /** The name `ReadAsStringAsync` looks up for a declared charset: one pair
      of enclosing double quotes is removed from a name longer than two
      characters. */
  function Unquote(cs: string): (r: string)
    ensures |r| <= |cs|
    ensures r != cs ==> |cs| > 2 && cs == "\"" + r + "\""
  {
    if |cs| > 2 && cs[0] == '"' && cs[|cs| - 1] == '"' then cs[1..|cs| - 1] else cs
  }

  /** Removing the quotes undoes quoting a non-empty name. */
  lemma UnquoteQuoted(name: string)
    requires |name| > 0
    ensures Unquote("\"" + name + "\"") == name
  {
    var cs := "\"" + name + "\"";
    assert cs[1..|cs| - 1] == name;
  }

  /** `content.ReadAsStringAsync()`: an empty body reads as "" without any
      lookup; otherwise a declared charset is looked up (unquoted), and one
      that names no encoding makes the read throw. */
  function ReadAsString(c: Content, getEncoding: EncodingLookup): (r: Result<string, HandlerError>)
    ensures r.Err? <==>
      c.text != "" && DeclaredCharSet(c).Some? && getEncoding(Unquote(DeclaredCharSet(c).value)).None?
    ensures r.Err? ==> r.error == UnreadableCharSet(DeclaredCharSet(c).value)
    ensures r.Ok? ==> r.value == c.text
  {
    if c.text == "" then Ok("")
    else match DeclaredCharSet(c)
      case None => Ok(c.text)
      case Some(cs) =>
        if getEncoding(Unquote(cs)).None? then Err(UnreadableCharSet(cs)) else Ok(c.text)
  }

  /** The body a `new StringContent(text, encoding, mediaType)` re-wrap
      produces: same text, the declared charset's encoding or UTF-8, the
      declared media type or `application/json`, and a single content
      header, the `Content-Type` of the new body. Fails when the declared
      charset, taken as it is, names no known encoding. */
  function Rewrap(c: Content, getEncoding: EncodingLookup): (r: Result<Content, HandlerError>)
    ensures r.Err? <==> DeclaredCharSet(c).Some? && getEncoding(DeclaredCharSet(c).value).None?
    ensures r.Err? ==> r.error == UnsupportedCharSet(DeclaredCharSet(c).value)
    ensures r.Ok? ==> r.value.text == c.text && r.value.contentType.Some?
    ensures r.Ok? ==>
      r.value.headers == [Header(ContentTypeName, [RenderMediaType(r.value.contentType.value)])]
    ensures r.Ok? ==>
      r.value.contentType.value.mediaType ==
        (if c.contentType.Some? then c.contentType.value.mediaType else "application/json")
    ensures r.Ok? ==>
      r.value.contentType.value.charSet == Some(
        if DeclaredCharSet(c).Some? then getEncoding(DeclaredCharSet(c).value).value.webName
        else "utf-8")
  {
    var encoding :=
      if DeclaredCharSet(c).Some? then getEncoding(DeclaredCharSet(c).value) else Some(Utf8);
    var mediaType := if c.contentType.Some? then c.contentType.value.mediaType else "application/json";
    match encoding
    case None => Err(UnsupportedCharSet(DeclaredCharSet(c).value))
    case Some(e) =>
      var m := MediaType(mediaType, Some(e.webName));
      Ok(Content(c.text, [Header(ContentTypeName, [RenderMediaType(m)])], Some(m)))
  }

  /** After a successful read the re-wrap can still fail, but only for an
      empty body (which the read does not decode) or for a quoted charset
      (which the read unquotes and the re-wrap does not). */
  lemma RewrapFailsAfterReadOnlyIfEmptyOrQuoted(c: Content, getEncoding: EncodingLookup)
    ensures ReadAsString(c, getEncoding).Ok? && Rewrap(c, getEncoding).Err? ==>
      c.text == "" || Unquote(DeclaredCharSet(c).value) != DeclaredCharSet(c).value
  {
  }

  /** The re-wrap as it was evidently meant: with the encoding the read used
      (the unquoted charset's, or UTF-8 when the body is empty and its
      charset names none), so that it fails only when the read does. */
  function RewrapAsRead(c: Content, getEncoding: EncodingLookup): (r: Result<Content, HandlerError>)
    ensures r.Err? <==> ReadAsString(c, getEncoding).Err?
    ensures r.Err? ==> r.error == ReadAsString(c, getEncoding).error
    ensures r.Ok? ==> r.value.text == c.text && r.value.contentType.Some?
    ensures r.Ok? ==>
      r.value.headers == [Header(ContentTypeName, [RenderMediaType(r.value.contentType.value)])]
    ensures r.Ok? ==>
      r.value.contentType.value.mediaType ==
        (if c.contentType.Some? then c.contentType.value.mediaType else "application/json")
    ensures r.Ok? && DeclaredCharSet(c).Some? && c.text != "" ==>
      r.value.contentType.value.charSet ==
        Some(getEncoding(Unquote(DeclaredCharSet(c).value)).value.webName)
  {
    match ReadAsString(c, getEncoding)
    case Err(e) => Err(e)
    case Ok(text) =>
      var declared := DeclaredCharSet(c);
      var used :=
        if declared.Some? && getEncoding(Unquote(declared.value)).Some?
        then getEncoding(Unquote(declared.value)).value else Utf8;
      var mediaType := if c.contentType.Some? then c.contentType.value.mediaType else "application/json";
      var m := MediaType(mediaType, Some(used.webName));
      Ok(Content(text, [Header(ContentTypeName, [RenderMediaType(m)])], Some(m)))
  }

  /** Wherever the re-wrap as written succeeds on an unquoted charset, the
      corrected re-wrap gives the same body. */
  lemma RewrapAsReadAgrees(c: Content, getEncoding: EncodingLookup)
    ensures Rewrap(c, getEncoding).Ok? && ReadAsString(c, getEncoding).Ok? &&
            (DeclaredCharSet(c).None? || Unquote(DeclaredCharSet(c).value) == DeclaredCharSet(c).value) ==>
      RewrapAsRead(c, getEncoding) == Rewrap(c, getEncoding)
  {
  }

  /** A lookup that knows UTF-8 under its web name and nothing else. */
  function Utf8Only(name: string): Option<Encoding> {
    if name == "utf-8" then Some(Utf8) else None
  }

  /** Turning Debug logging on changes the outcome of a call whose body the
      read accepts: a JSON body declaring the quoted charset `"utf-8"`, and
      an empty body declaring an unknown charset, are sent as they are with
      Debug off but make the re-wrap throw with Debug on. */
  lemma LoggingChangesOutcome(handler: Handler, inner: Transport)
    ensures var quoted := Content("{}", [], Some(MediaType("application/json", Some("\"utf-8\""))));
      var q := Request("POST", Some("https://example.test/"), [], Some(quoted));
      && ReadAsString(quoted, Utf8Only).Ok?
      && SendAsync(handler.(logger := Logger(false)), Some(q), inner, Utf8Only).outcome.Ok?
      && SendAsync(handler.(logger := Logger(true)), Some(q), inner, Utf8Only).outcome ==
           Err(UnsupportedCharSet("\"utf-8\""))
    ensures var empty := Content("", [], Some(MediaType("application/json", Some("bogus"))));
      var q := Request("POST", Some("https://example.test/"), [], Some(empty));
      && ReadAsString(empty, Utf8Only).Ok?
      && SendAsync(handler.(logger := Logger(false)), Some(q), inner, Utf8Only).outcome.Ok?
      && SendAsync(handler.(logger := Logger(true)), Some(q), inner, Utf8Only).outcome ==
           Err(UnsupportedCharSet("bogus"))
  {
  }

  /** Re-wrapping is stable: a body already re-wrapped is re-wrapped to
      itself, provided the lookup maps each encoding's web name back to it. */
  lemma RewrapIdempotent(c: Content, getEncoding: EncodingLookup)
    requires getEncoding("utf-8") == Some(Utf8)
    requires forall name :: getEncoding(name).Some? ==>
      getEncoding(getEncoding(name).value.webName) == getEncoding(name)
    requires Rewrap(c, getEncoding).Ok?
    ensures Rewrap(Rewrap(c, getEncoding).value, getEncoding) == Rewrap(c, getEncoding)
  {
  }

  /** The exceptions `SendAsync` raises itself. */
  datatype HandlerError =
    | ArgumentNull                      // `ArgumentNullException.ThrowIfNull`
    | UnreadableCharSet(name: string)   // `ReadAsStringAsync` found no encoding for the charset
    | UnsupportedCharSet(name: string)  // `Encoding.GetEncoding` rejected the charset at the re-wrap

  /** The handler: the options it reads the token from at every send, and the
      logger captured at construction. */
  datatype Handler = Handler(options: Options, logger: Logger)

  /** The constructor: null options are rejected; the logger is captured. */
  function NewHandler(options: Option<Options>): (r: Result<Handler, HandlerError>)
    ensures options.None? <==> r == Err(ArgumentNull)
    ensures r.Ok? ==> r.value.options == options.value && r.value.logger == options.value.logger
  {
    if options.None? then Err(ArgumentNull) else Ok(Handler(options.value, options.value.logger))
  }

  /** The inner handler's send, left abstract. */
  type Transport = Request -> Response

  /** Everything one `SendAsync` call does: its outcome, the requests it
      handed to the inner transport, in order, and the events it logged. */
  datatype SendTrace = SendTrace(outcome: Result<Response, HandlerError>, sent: seq<Request>, log: seq<LogEvent>)

  /** The request with the bearer token stamped on it. */
  function Authenticate(q: Request, apiToken: Option<string>): (r: Request)
    requires WellFormed(q.headers)
    ensures Authorized(r.headers, BearerValue(apiToken))
    ensures NonAuthorization(r.headers) == NonAuthorization(q.headers)
    ensures r.verb == q.verb && r.uri == q.uri && r.content == q.content
  {
    q.(headers := SetAuthorization(q.headers, BearerValue(apiToken)))
  }

  /** The request with its body, if any, read and then re-wrapped. */
  function RewrapRequest(q: Request, getEncoding: EncodingLookup): (r: Result<Request, HandlerError>)
    ensures r.Err? <==>
      q.content.Some? && (ReadAsString(q.content.value, getEncoding).Err? || Rewrap(q.content.value, getEncoding).Err?)
    ensures r.Err? && ReadAsString(q.content.value, getEncoding).Err? ==>
      r.error == ReadAsString(q.content.value, getEncoding).error
    ensures r.Err? && ReadAsString(q.content.value, getEncoding).Ok? ==>
      r.error == Rewrap(q.content.value, getEncoding).error
    ensures r.Ok? ==>
      && r.value.verb == q.verb && r.value.uri == q.uri && r.value.headers == q.headers
      && (q.content.None? ==> r.value.content.None?)
      && (q.content.Some? ==> r.value.content == Some(Rewrap(q.content.value, getEncoding).value))
  {
    if q.content.None? then Ok(q)
    else match ReadAsString(q.content.value, getEncoding)
      case Err(e) => Err(e)
      case Ok(_) =>
        match Rewrap(q.content.value, getEncoding)
        case Err(e) => Err(e)
        case Ok(c) => Ok(q.(content := Some(c)))
  }

  /** Rendered, a complete request or response block draws a closed box,
      and the log a failure leaves behind (a head or a prelude) draws a box
      that is still open. */
  lemma RenderedBlocksAreBoxes(q: Request, p: Response)
    ensures Boxed(RenderAll(RequestBlock(q))) && Boxed(RenderAll(ResponseBlock(p)))
    ensures !Boxed(RenderAll(RequestHead(q))) && !Boxed(RenderAll(RequestPrelude(q)))
    ensures !Boxed(RenderAll(ResponseHead(p))) && !Boxed(RenderAll(ResponsePrelude(p)))
  {
    RenderedBlockIsBox(RequestBlock(q));
    RenderedBlockIsBox(ResponseBlock(p));
    OpenBlockIsNotBox(RequestHead(q));
    OpenBlockIsNotBox(RequestPrelude(q));
    OpenBlockIsNotBox(ResponseHead(p));
    OpenBlockIsNotBox(ResponsePrelude(p));
  }

  lemma OpenBlockIsNotBox(s: seq<LogEvent>)
    requires |s| >= 1 && NoMarkers(s[1..])
    ensures !Boxed(RenderAll(s))
  {
    RenderedBlockIsBox(s);
    if |s| >= 2 {
      assert s[|s| - 1] == s[1..][|s| - 2];
    }
  }

  /** The response with its body read and then re-wrapped. The null check
      before the read always passes, since a response always has content. */
  function RewrapResponse(p: Response, getEncoding: EncodingLookup): (r: Result<Response, HandlerError>)
    ensures r.Err? <==>
      ReadAsString(p.content, getEncoding).Err? || Rewrap(p.content, getEncoding).Err?
    ensures r.Err? && ReadAsString(p.content, getEncoding).Err? ==>
      r.error == ReadAsString(p.content, getEncoding).error
    ensures r.Err? && ReadAsString(p.content, getEncoding).Ok? ==>
      r.error == Rewrap(p.content, getEncoding).error
    ensures r.Ok? ==>
      && r.value.statusCode == p.statusCode && r.value.reasonPhrase == p.reasonPhrase
      && r.value.headers == p.headers
      && r.value.content == Rewrap(p.content, getEncoding).value
  {
    match ReadAsString(p.content, getEncoding)
    case Err(e) => Err(e)
    case Ok(_) =>
      match Rewrap(p.content, getEncoding)
      case Err(e) => Err(e)
      case Ok(c) => Ok(p.(content := c))
  }

  /** A response without a body still comes back re-wrapped: as empty
      `application/json` content in UTF-8, whatever the encoding lookup. */
  lemma BodylessResponseBecomesJson(p: Response, getEncoding: EncodingLookup)
    requires p.content == NoContent
    ensures RewrapResponse(p, getEncoding).Ok?
    ensures RewrapResponse(p, getEncoding).value.content ==
      Content("", [Header(ContentTypeName, ["application/json; charset=utf-8"])],
              Some(MediaType("application/json", Some("utf-8"))))
  {
    assert RenderMediaType(MediaType("application/json", Some("utf-8"))) == "application/json; charset=utf-8";
  }

  /** `SendAsync(request, cancellationToken)`. */
  function SendAsync(handler: Handler, request: Option<Request>, inner: Transport, getEncoding: EncodingLookup): (t: SendTrace)
    requires request.Some? ==> WellFormed(request.value.headers)
    // a null request is rejected before anything else happens
    ensures request.None? <==> t.outcome == Err(ArgumentNull)
    ensures request.None? ==> t.sent == [] && t.log == []
    // the inner transport is called at most once, and exactly once on success
    ensures |t.sent| <= 1
    ensures t.outcome.Ok? ==> |t.sent| == 1
    // with debug logging off nothing is logged and the call cannot fail past the null check
    ensures !handler.logger.debugEnabled ==> t.log == [] && (request.Some? ==> t.outcome.Ok?)
    // the Authorization value never reaches the log
    ensures Redacted(t.log)
  {
    if request.None? then SendTrace(Err(ArgumentNull), [], [])
    else
      var authed := Authenticate(request.value, handler.options.apiToken);
      if !handler.logger.debugEnabled then SendTrace(Ok(inner(authed)), [authed], [])
      else LoggedSend(authed, inner, getEncoding)
  }

  /** The Debug-enabled path after stamping: log and re-wrap the request,
      send it, log and re-wrap the response. */
  function LoggedSend(authed: Request, inner: Transport, getEncoding: EncodingLookup): (t: SendTrace)
    ensures t.outcome != Err(ArgumentNull)
    ensures |t.sent| <= 1
    ensures t.outcome.Ok? ==> |t.sent| == 1
    ensures Redacted(t.log)
    // a request body that cannot be read or re-wrapped stops the call before the send
    ensures |t.sent| == 0 <==> RewrapRequest(authed, getEncoding).Err?
    ensures |t.sent| == 0 ==> t.outcome == Err(RewrapRequest(authed, getEncoding).error)
    // an unreadable body ends the log before the body line, a failed re-wrap just after it
    ensures |t.sent| == 0 && t.outcome.Err? && t.outcome.error.UnreadableCharSet? ==> t.log == RequestHead(authed)
    ensures |t.sent| == 0 && t.outcome.Err? && t.outcome.error.UnsupportedCharSet? ==> t.log == RequestPrelude(authed)
    // otherwise the re-wrapped request is sent once and its response read and re-wrapped
    ensures |t.sent| == 1 ==>
      && t.sent[0] == RewrapRequest(authed, getEncoding).value
      && t.outcome == RewrapResponse(inner(t.sent[0]), getEncoding)
    ensures |t.sent| == 1 && t.outcome.Ok? ==>
      t.log == RequestBlock(t.sent[0]) + ResponseBlock(inner(t.sent[0]))
    ensures |t.sent| == 1 && t.outcome.Err? && t.outcome.error.UnreadableCharSet? ==>
      t.log == RequestBlock(t.sent[0]) + ResponseHead(inner(t.sent[0]))
    ensures |t.sent| == 1 && t.outcome.Err? && t.outcome.error.UnsupportedCharSet? ==>
      t.log == RequestBlock(t.sent[0]) + ResponsePrelude(inner(t.sent[0]))
  {
    match RewrapRequest(authed, getEncoding)
    case Err(e) =>
      SendTrace(Err(e), [], if e.UnreadableCharSet? then RequestHead(authed) else RequestPrelude(authed))
    case Ok(outgoing) =>
      var received := inner(outgoing);
      match RewrapResponse(received, getEncoding)
      case Err(e) =>
        var tail := if e.UnreadableCharSet? then ResponseHead(received) else ResponsePrelude(received);
        RedactedConcat(RequestBlock(outgoing), tail);
        SendTrace(Err(e), [outgoing], RequestBlock(outgoing) + tail)
      case Ok(returned) =>
        RedactedConcat(RequestBlock(outgoing), ResponseBlock(received));
        SendTrace(Ok(returned), [outgoing], RequestBlock(outgoing) + ResponseBlock(received))
  }

  /** The request handed to the inner transport carries the bearer token as
      its only `Authorization` value; every other header, the method, the
      URI and the body text are those of the caller's request. */
  lemma SentRequestIsAuthenticated(handler: Handler, request: Request, inner: Transport, getEncoding: EncodingLookup)
    requires WellFormed(request.headers)
    ensures var t := SendAsync(handler, Some(request), inner, getEncoding);
      |t.sent| == 1 ==>
        && Authorized(t.sent[0].headers, BearerValue(handler.options.apiToken))
        && NonAuthorization(t.sent[0].headers) == NonAuthorization(request.headers)
        && t.sent[0].verb == request.verb && t.sent[0].uri == request.uri
        && (t.sent[0].content.Some? <==> request.content.Some?)
        && (t.sent[0].content.Some? ==> t.sent[0].content.value.text == request.content.value.text)
  {
  }

  /** What the caller gets back is the inner transport's response: status,
      reason phrase, headers and body text unchanged. */
  lemma ReturnsInnerResponse(handler: Handler, request: Request, inner: Transport, getEncoding: EncodingLookup)
    requires WellFormed(request.headers)
    ensures var t := SendAsync(handler, Some(request), inner, getEncoding);
      t.outcome.Ok? ==>
        var received := inner(t.sent[0]);
        && t.outcome.value.statusCode == received.statusCode
        && t.outcome.value.reasonPhrase == received.reasonPhrase
        && t.outcome.value.headers == received.headers
        && t.outcome.value.content.text == received.content.text
  {
  }

  /** With Debug logging off the handler only stamps the token: nothing is
      logged, the body is not touched, and the inner response is returned
      as it is. */
  lemma DebugOffPassesThrough(handler: Handler, request: Request, inner: Transport, getEncoding: EncodingLookup)
    requires WellFormed(request.headers)
    requires !handler.logger.debugEnabled
    ensures var t := SendAsync(handler, Some(request), inner, getEncoding);
      && t.log == []
      && t.sent == [Authenticate(request, handler.options.apiToken)]
      && t.sent[0].content == request.content
      && t.outcome == Ok(inner(t.sent[0]))
  {
  }

  /** With Debug logging on and no failure, the log is exactly the request
      block of what was sent followed by the response block of what came
      back, and both bodies are re-wrapped. */
  lemma DebugLogDescribesExchange(handler: Handler, request: Request, inner: Transport, getEncoding: EncodingLookup)
    requires WellFormed(request.headers)
    requires handler.logger.debugEnabled
    ensures var t := SendAsync(handler, Some(request), inner, getEncoding);
      t.outcome.Ok? ==>
        var received := inner(t.sent[0]);
        var k := |RequestBlock(t.sent[0])|;
        && t.log == RequestBlock(t.sent[0]) + ResponseBlock(received)
        && k <= |t.log|
        && Framed(t.log[..k], RequestStart, RequestEnd)
        && Framed(t.log[k..], ResponseStart, ResponseEnd)
        && (request.content.Some? ==> t.sent[0].content == Some(Rewrap(request.content.value, getEncoding).value))
        && t.outcome.value.content == Rewrap(received.content, getEncoding).value
  {
    var t := SendAsync(handler, Some(request), inner, getEncoding);
    if t.outcome.Ok? {
      var block := RequestBlock(t.sent[0]);
      assert t.log[..|block|] == block;
      assert t.log[|block|..] == ResponseBlock(inner(t.sent[0]));
    }
  }

  /** The stamped request always has a header, so its block always lists
      the "Headers:" line and then the `Authorization` entry, redacted. */
  lemma AuthenticatedBlockListsHeaders(request: Request, apiToken: Option<string>)
    requires WellFormed(request.headers)
    ensures var q := Authenticate(request, apiToken);
      var r := RequestBlock(q);
      && |r| > 4 && r[3] == RequestHeadersStart
      && RequestHeaderRedacted(AuthorizationName) in r
  {
    var q := Authenticate(request, apiToken);
    var r := RequestBlock(q);
    var section := RequestHeaderSection(q.headers);
    RequestBlockOrder(q);
    var k := RedactedLineInSection(q.headers, BearerValue(apiToken));
    assert r[3] == section[0];
    assert r[3 + k] == section[k];
  }

  /** The section of headers carrying an `Authorization` entry holds its
      redacted line. */
  lemma RedactedLineInSection(hs: Headers, value: string) returns (k: nat)
    requires Header(AuthorizationName, [value]) in hs
    ensures 0 < k < |RequestHeaderSection(hs)|
    ensures RequestHeaderSection(hs)[k] == RequestHeaderRedacted(AuthorizationName)
  {
    var i :| 0 <= i < |hs| && hs[i] == Header(AuthorizationName, [value]);
    k := i + 1;
  }

  /** A request body whose declared charset names no encoding makes the
      call throw before anything is sent: when the read cannot decode the
      body the log stops before the body line, and when only the re-wrap
      rejects the charset (an empty body, or a quoted name) it stops just
      after it. Either way the request block is left unclosed. */
  lemma DebugRequestBodyFailure(handler: Handler, request: Request, inner: Transport, getEncoding: EncodingLookup)
    requires WellFormed(request.headers)
    requires handler.logger.debugEnabled
    requires request.content.Some?
    ensures var t := SendAsync(handler, Some(request), inner, getEncoding);
      var authed := Authenticate(request, handler.options.apiToken);
      var c := request.content.value;
      && (ReadAsString(c, getEncoding).Err? ==>
            && t.outcome == Err(UnreadableCharSet(DeclaredCharSet(c).value))
            && t.sent == []
            && t.log == RequestHead(authed))
      && (ReadAsString(c, getEncoding).Ok? && Rewrap(c, getEncoding).Err? ==>
            && t.outcome == Err(UnsupportedCharSet(DeclaredCharSet(c).value))
            && t.sent == []
            && t.log == RequestPrelude(authed))
  {
  }

  /** A response body whose declared charset names no encoding makes the
      call throw after the single send, the request block closed and the
      response block left open: before the body line when the read fails,
      after it when only the re-wrap does. */
  lemma DebugResponseBodyFailure(handler: Handler, request: Request, inner: Transport, getEncoding: EncodingLookup)
    requires WellFormed(request.headers)
    requires handler.logger.debugEnabled
    ensures var t := SendAsync(handler, Some(request), inner, getEncoding);
      t.outcome.Err? && |t.sent| == 1 ==>
        var received := inner(t.sent[0]);
        var c := received.content;
        && (ReadAsString(c, getEncoding).Err? ==>
              && t.outcome == Err(UnreadableCharSet(DeclaredCharSet(c).value))
              && t.log == RequestBlock(t.sent[0]) + ResponseHead(received))
        && (ReadAsString(c, getEncoding).Ok? ==>
              && Rewrap(c, getEncoding).Err?
              && t.outcome == Err(UnsupportedCharSet(DeclaredCharSet(c).value))
              && t.log == RequestBlock(t.sent[0]) + ResponsePrelude(received))
  {
  }

  /** The token never reaches the log: for any two tokens the request
      block of the stamped request, and each prefix of it a failure can
      leave, is the same. */
  lemma RequestLogIndependentOfToken(request: Request, token1: Option<string>, token2: Option<string>)
    requires WellFormed(request.headers)
    ensures RequestBlock(Authenticate(request, token1)) == RequestBlock(Authenticate(request, token2))
    ensures RequestPrelude(Authenticate(request, token1)) == RequestPrelude(Authenticate(request, token2))
    ensures RequestHead(Authenticate(request, token1)) == RequestHead(Authenticate(request, token2))
  {
    var q1, q2 := Authenticate(request, token1), Authenticate(request, token2);
    StampedSectionIndependentOfValue(request.headers, BearerValue(token1), BearerValue(token2));
    assert RequestBodySection(q1) == RequestBodySection(q2);
    RequestBlockUnfolds(q1);
    RequestBlockUnfolds(q2);
  }

  /** The same holds for the rendered text: the lines written for a stamped
      request are identical whatever the token. */
  lemma RenderedRequestLogIndependentOfToken(request: Request, token1: Option<string>, token2: Option<string>)
    requires WellFormed(request.headers)
    ensures RenderAll(RequestBlock(Authenticate(request, token1))) == RenderAll(RequestBlock(Authenticate(request, token2)))
    ensures RenderAll(RequestHead(Authenticate(request, token1))) == RenderAll(RequestHead(Authenticate(request, token2)))
  {
    RequestLogIndependentOfToken(request, token1, token2);
  }

  lemma StampedSectionIndependentOfValue(hs: Headers, v1: string, v2: string)
    requires WellFormed(hs)
    ensures RequestHeaderSection(SetAuthorization(hs, v1)) == RequestHeaderSection(SetAuthorization(hs, v2))
  {
    StampedHeadersDifferOnlyInValue(hs, v1, v2);
    assert RequestHeaderEvents(SetAuthorization(hs, v1)) == RequestHeaderEvents(SetAuthorization(hs, v2));
  }
}
