/** The parts of `HttpRequestMessage` / `HttpResponseMessage` the
    authenticating handler touches: ordered header collections keyed
    case-insensitively, string bodies with their declared content type, and
    the `Authorization` header it stamps. */
module HttpMessages {
  import opened Outcome
  import opened Text

  /** One header entry: a name and its ordered values. */
  datatype Header = Header(name: string, values: seq<string>)

  /** A header collection in enumeration order. */
  type Headers = seq<Header>

  /** The platform's header collections hold at most one entry per name,
      names compared ordinally ignoring case. */
  predicate WellFormed(hs: Headers) {
    forall i, j :: 0 <= i < j < |hs| ==> !EqualsIgnoreCase(hs[i].name, hs[j].name)
  }

  const AuthorizationName: string := "Authorization"

  predicate IsAuthorization(name: string) {
    EqualsIgnoreCase(name, AuthorizationName)
  }

  /** The entries other than `Authorization`, in order. */
  function NonAuthorization(hs: Headers): (r: Headers)
    ensures forall h :: h in r ==> h in hs && !IsAuthorization(h.name)
    decreases |hs|
  {
    if |hs| == 0 then []
    else if IsAuthorization(hs[0].name) then NonAuthorization(hs[1..])
    else [hs[0]] + NonAuthorization(hs[1..])
  }

  /** `hs` carries exactly one `Authorization` entry, whose only value is `value`. */
  predicate Authorized(hs: Headers, value: string) {
    WellFormed(hs) && Header(AuthorizationName, [value]) in hs
  }

  /** `new AuthenticationHeaderValue("Bearer", token).ToString()`: the scheme
      alone when the parameter is null or empty. */
  function BearerValue(apiToken: Option<string>): string {
    if apiToken.None? || apiToken.value == "" then "Bearer"
    else "Bearer " + apiToken.value
  }

  lemma WellFormedTail(hs: Headers)
    requires |hs| > 0 && WellFormed(hs)
    ensures WellFormed(hs[1..])
  {
    forall i, j | 0 <= i < j < |hs[1..]|
      ensures !EqualsIgnoreCase(hs[1..][i].name, hs[1..][j].name)
    {
      assert hs[1..][i] == hs[i + 1] && hs[1..][j] == hs[j + 1];
    }
  }

  /** Overwriting the first entry with one of an equal name keeps the names distinct. */
  lemma ReplacedHeadWellFormed(hs: Headers, h: Header)
    requires |hs| > 0 && WellFormed(hs) && EqualsIgnoreCase(hs[0].name, h.name)
    ensures WellFormed([h] + hs[1..])
  {
    var r := [h] + hs[1..];
    forall i, j | 0 <= i < j < |r|
      ensures !EqualsIgnoreCase(r[i].name, r[j].name)
    {
      assert r[j] == hs[j];
      if i > 0 {
        assert r[i] == hs[i];
      }
    }
  }

  /** Putting back a non-`Authorization` first entry in front of a stamped
      tail keeps the names distinct. */
  lemma KeptHeadWellFormed(hs: Headers, rest: Headers, value: string)
    requires |hs| > 0 && WellFormed(hs) && !IsAuthorization(hs[0].name)
    requires WellFormed(rest)
    requires forall h :: h in rest ==> h in hs[1..] || h == Header(AuthorizationName, [value])
    ensures WellFormed([hs[0]] + rest)
  {
    var r := [hs[0]] + rest;
    forall i, j | 0 <= i < j < |r|
      ensures !EqualsIgnoreCase(r[i].name, r[j].name)
    {
      assert r[j] == rest[j - 1];
      if i == 0 {
        assert r[j] in rest;
        if r[j] in hs[1..] {
          var k :| 0 <= k < |hs[1..]| && hs[1..][k] == r[j];
          assert hs[k + 1] == r[j];
        }
      } else {
        assert r[i] == rest[i - 1];
      }
    }
  }

  /** `headers.Authorization = value`: an existing entry is overwritten in
      place, otherwise a new one is appended. */
  function SetAuthorization(hs: Headers, value: string): (r: Headers)
    requires WellFormed(hs)
    ensures Authorized(r, value)
    ensures NonAuthorization(r) == NonAuthorization(hs)
    ensures forall h :: h in r ==> h in hs || h == Header(AuthorizationName, [value])
    decreases |hs|
  {
    var stamped := Header(AuthorizationName, [value]);
    if |hs| == 0 then
      [stamped]
    else if IsAuthorization(hs[0].name) then
      ReplacedHeadWellFormed(hs, stamped);
      assert ([stamped] + hs[1..])[1..] == hs[1..];
      [stamped] + hs[1..]
    else
      WellFormedTail(hs);
      var rest := SetAuthorization(hs[1..], value);
      KeptHeadWellFormed(hs, rest, value);
      assert ([hs[0]] + rest)[1..] == rest;
      [hs[0]] + rest
  }

  /** Stamping two different values yields collections that differ only in
      the value of the `Authorization` entry. */
  lemma {:induction false} StampedHeadersDifferOnlyInValue(hs: Headers, v1: string, v2: string)
    requires WellFormed(hs)
    ensures var r1, r2 := SetAuthorization(hs, v1), SetAuthorization(hs, v2);
      && |r1| == |r2|
      && forall i :: 0 <= i < |r1| ==>
           r1[i].name == r2[i].name && (!IsAuthorization(r1[i].name) ==> r1[i] == r2[i])
    decreases |hs|
  {
    if |hs| > 0 && !IsAuthorization(hs[0].name) {
      WellFormedTail(hs);
      StampedHeadersDifferOnlyInValue(hs[1..], v1, v2);
    }
  }

  /** `MediaTypeHeaderValue`: a media type and an optional `charset` parameter. */
  datatype MediaType = MediaType(mediaType: string, charSet: Option<string>)

  /** An `HttpContent`: its text, its content headers as enumerated (names
      and values as received, `Content-Type` among them wherever it came),
      and `ContentType`, the platform's parsed view of the `Content-Type`
      entry, which the re-wrap reads. */
  datatype Content = Content(text: string, headers: Headers, contentType: Option<MediaType>)

  const ContentTypeName: string := "Content-Type"

  /** The header text of a `Content-Type` value. */
  function RenderMediaType(m: MediaType): string {
    m.mediaType + (if m.charSet.Some? then "; charset=" + m.charSet.value else "")
  }

  /** An `HttpRequestMessage`; `uri` is `RequestUri?.ToString()` and `verb`
      is `Method.ToString()`. */
  datatype Request = Request(verb: string, uri: Option<string>, headers: Headers, content: Option<Content>)

  /** An `HttpResponseMessage`; `statusCode` is `(int)StatusCode`. Unlike a
      request's, a response's `Content` is never null: a response without a
      body carries `NoContent`. */
  datatype Response = Response(statusCode: int, reasonPhrase: Option<string>, headers: Headers, content: Content)

  /** The empty content the platform gives a response that has no body. */
  const NoContent: Content := Content("", [], None)

  /** A `System.Text.Encoding`, known by its web name. */
  datatype Encoding = Encoding(webName: string)

  const Utf8: Encoding := Encoding("utf-8")

  /** `Encoding.GetEncoding(name)`, left abstract: `None` when the name is
      not a supported encoding (the call throws). */
  type EncodingLookup = string -> Option<Encoding>
}
