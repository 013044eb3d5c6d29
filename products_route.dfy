/**
 * The product-search endpoint `GET /api/products?keyword=...`: it checks the
 * keyword and the two credentials, signs a request for the marketplace's
 * search API and maps the upstream outcome to its own response.  The HMAC
 * digest and the outbound `fetch` are parameters: `hmacHex(key, message)`
 * stands for the lower-case hex HMAC-SHA256 digest (RFC 2104, section 2, over
 * SHA-256) and `fetch(request)` for what the upstream answers.
 */
module ProductsRoute {
  import opened Wrappers
  import opened JsString

  const ApiHost := "https://api-gateway.coupang.com"
  const SearchPath := "/v2/providers/affiliate_open_api/apis/openapi/v1/products/search"
  const RequestMethod := "POST"
  const JsonContentType := "application/json"
  const SearchLimit := 50

  const KeywordRequired := "Keyword is required"
  const ConfigurationError := "Server configuration error"
  const FetchFailed := "Failed to fetch data from Coupang API"
  const UpstreamFailedPrefix := "Coupang API request failed with status: "

  const AuthorizationPrefix := "CEA-HMAC-SHA256 AccessKey="
  const SignedHeadersPart := ", SignedHeaders=x-cea-date, Signature="

  /**
   * The statuses an upstream reply can carry: a three-digit status code
   * (section 15 of RFC 9110), with the interim 1xx replies consumed by
   * `fetch` itself.  Codes above 599 are not defined, but they are read as
   * they arrive.
   */
  type HttpStatus = s: int | 200 <= s <= 999 witness 200

  /** The null body statuses of the Fetch standard: a `Response` with one of them has no body. */
  predicate IsNullBodyStatus(status: int) {
    status == 101 || status == 103 || status == 204 || status == 205 || status == 304
  }

  /**
   * The statuses `new Response(body, { status })`, and so
   * `NextResponse.json(body, { status })`, accepts with a body: a status
   * outside 200 to 599 throws a `RangeError`, and a null body status a
   * `TypeError`.
   */
  predicate ResponseAccepts(status: int) {
    200 <= status <= 599 && !IsNullBodyStatus(status)
  }

  /** `response.ok` */
  predicate IsOk(status: HttpStatus) { status <= 299 }

  /** The JSON body `{ keyword, limit }` of the outbound request. */
  datatype SearchBody = SearchBody(keyword: string, limit: int)

  /** The outbound request: URL, method, the three headers and the body. */
  datatype Outbound = Outbound(
    url: string, httpMethod: string,
    contentType: string, authorization: string, ceaDate: string,
    body: SearchBody)

  /**
   * The body of an upstream reply as the handler reads it: reading fails
   * (`response.text()` or `response.json()` throws), it is text that is not
   * JSON (only `response.json()` throws), or it parses as the JSON value `d`.
   */
  datatype Payload<D> = Unreadable | NotJson | Json(value: D)

  /** What the upstream call produced: `fetch` rejected (`Threw`), or a reply. */
  datatype Upstream<D> = Threw | Replied(status: HttpStatus, payload: Payload<D>)

  /** A response body: the `{ error }` object, or upstream data passed through. */
  datatype Body<D> = ErrorBody(error: string) | Relayed(data: D)

  datatype Response<D> = Response(status: int, body: Body<D>)

  /** What the handler does before any network call: answer at once, or send a request. */
  datatype Step<D> = Answer(response: Response<D>) | Send(request: Outbound)

  /** JavaScript truthiness of a query parameter or environment variable. */
  predicate IsPresent(v: Option<string>) { v.Some? && v.value != "" }

  // ---------------------------------------------------------------------
  // Timestamp and signing message
  // ---------------------------------------------------------------------

  /** `iso.substr(0, 19) + 'Z'` */
  function Timestamp(iso: string): (t: string)
    ensures |t| == (if |iso| < 19 then |iso| else 19) + 1
    ensures t[|t| - 1] == 'Z' && t[..|t| - 1] == iso[..|t| - 1]
  {
    (if |iso| < 19 then iso else iso[..19]) + "Z"
  }

  /** Positions 0 to 18 read `YYYY-MM-DDTHH:MM:SS`. */
  predicate HasSecondsPrefix(s: string) {
    && |s| >= 19
    && s[4] == '-' && s[7] == '-' && s[10] == 'T' && s[13] == ':' && s[16] == ':'
    && forall i :: 0 <= i < 19 && i != 4 && i != 7 && i != 10 && i != 13 && i != 16 ==> IsDigitChar(s[i])
  }

  /** What `Date.prototype.toISOString` produces for years 0 to 9999: `YYYY-MM-DDTHH:MM:SS.sssZ`. */
  predicate IsIsoInstant(iso: string) {
    && |iso| == 24 && HasSecondsPrefix(iso)
    && iso[19] == '.' && IsDigitChar(iso[20]) && IsDigitChar(iso[21]) && IsDigitChar(iso[22]) && iso[23] == 'Z'
  }

  /** The `x-cea-date` format: `YYYY-MM-DDTHH:MM:SSZ`. */
  predicate IsSecondStamp(t: string) {
    |t| == 20 && HasSecondsPrefix(t) && t[19] == 'Z'
  }

  /** For a clock reading, the timestamp is that instant with its milliseconds cut off. */
  lemma TimestampDropsFraction(iso: string)
    requires IsIsoInstant(iso)
    ensures IsSecondStamp(Timestamp(iso))
    ensures Timestamp(iso) == iso[..19] + iso[23..]
    ensures '.' !in Timestamp(iso)
  {
    var t := Timestamp(iso);
    assert t == iso[..19] + "Z";
    assert forall i :: 0 <= i < 19 ==> t[i] == iso[i];
  }

  /** `datetime + method.toUpperCase() + path`, with no separators. */
  function SigningMessage(datetime: string): (m: string)
    ensures |m| == |datetime| + |RequestMethod + SearchPath|
    ensures m[..|datetime|] == datetime && m[|datetime|..] == RequestMethod + SearchPath
  {
    datetime + RequestMethod + SearchPath
  }

  /** Different timestamps give different signing messages. */
  lemma SigningMessageInjective(a: string, b: string)
    requires SigningMessage(a) == SigningMessage(b)
    ensures a == b
  {
    assert |a| == |SigningMessage(a)| - |RequestMethod + SearchPath| == |b|;
  }

  /** The `Authorization` header value. */
  function AuthorizationHeader(accessKey: string, signature: string): (h: string)
    ensures |h| == |AuthorizationPrefix| + |accessKey| + |SignedHeadersPart| + |signature|
    ensures h[..|AuthorizationPrefix|] == AuthorizationPrefix
    ensures h[|AuthorizationPrefix|..|AuthorizationPrefix| + |accessKey|] == accessKey
    ensures h[|AuthorizationPrefix| + |accessKey|..|h| - |signature|] == SignedHeadersPart
    ensures h[|h| - |signature|..] == signature
  {
    AuthorizationPrefix + accessKey + SignedHeadersPart + signature
  }

  /** For a given access key the header determines the signature. */
  lemma AuthorizationHeaderDeterminesSignature(accessKey: string, sig1: string, sig2: string)
    requires AuthorizationHeader(accessKey, sig1) == AuthorizationHeader(accessKey, sig2)
    ensures sig1 == sig2
  {
    var h := AuthorizationHeader(accessKey, sig1);
    assert |sig1| == |sig2|;
    assert sig1 == h[|h| - |sig1|..] == sig2;
  }

  // ---------------------------------------------------------------------
  // The handler
  // ---------------------------------------------------------------------

  /** The signed request for a keyword, once the credentials and the time are known. */
  function SignedRequest(keyword: string, accessKey: string, secretKey: string, iso: string,
                         hmacHex: (string, string) -> string): (req: Outbound)
    ensures req.url == ApiHost + SearchPath && req.httpMethod == RequestMethod
    ensures req.contentType == JsonContentType && req.ceaDate == Timestamp(iso)
    ensures req.authorization == AuthorizationHeader(accessKey, hmacHex(secretKey, SigningMessage(req.ceaDate)))
    ensures req.body == SearchBody(keyword, SearchLimit)
  {
    var datetime := Timestamp(iso);
    var signature := hmacHex(secretKey, SigningMessage(datetime));
    Outbound(ApiHost + SearchPath, RequestMethod, JsonContentType,
             AuthorizationHeader(accessKey, signature), datetime,
             SearchBody(keyword, SearchLimit))
  }

  /** The guards, in order: keyword (400), then credentials (500), then signing. */
  function Prepare<D>(keyword: Option<string>, accessKey: Option<string>, secretKey: Option<string>,
                      iso: string, hmacHex: (string, string) -> string): (step: Step<D>)
    ensures !IsPresent(keyword) ==> step == Answer(Response(400, ErrorBody(KeywordRequired)))
    ensures IsPresent(keyword) && !(IsPresent(accessKey) && IsPresent(secretKey)) ==>
      step == Answer(Response(500, ErrorBody(ConfigurationError)))
    ensures step.Send? <==> IsPresent(keyword) && IsPresent(accessKey) && IsPresent(secretKey)
  {
    if !IsPresent(keyword) then Answer(Response(400, ErrorBody(KeywordRequired)))
    else if !IsPresent(accessKey) || !IsPresent(secretKey) then Answer(Response(500, ErrorBody(ConfigurationError)))
    else Send(SignedRequest(keyword.value, accessKey.value, secretKey.value, iso, hmacHex))
  }

  /** The message for an upstream status that is not OK. */
  function UpstreamError(status: HttpStatus): (e: string)
    ensures |e| > |UpstreamFailedPrefix| && e[..|UpstreamFailedPrefix|] == UpstreamFailedPrefix
    ensures ParseableStatus(e[|UpstreamFailedPrefix|..])
    ensures ParseDigits(e[|UpstreamFailedPrefix|..]) == status
    ensures e[|UpstreamFailedPrefix|] != '0'
  {
    DecimalRoundTrip(status);
    UpstreamFailedPrefix + DecimalString(status)
  }

  predicate ParseableStatus(s: string) { forall i :: 0 <= i < |s| ==> IsDigitChar(s[i]) }

  /**
   * The `try` block after `fetch`: a non-OK status passes through with its
   * own error message when a `Response` can carry it with a body, parsed
   * data is relayed with status 200, and anything that throws (reading the
   * body, parsing it, or building the error response for a status such as
   * 304) becomes the generic 500.
   */
  function Relay<D>(outcome: Upstream<D>): (r: Response<D>)
    ensures outcome.Threw? ==> r == Response(500, ErrorBody(FetchFailed))
    ensures outcome.Replied? && outcome.payload.Unreadable? ==> r == Response(500, ErrorBody(FetchFailed))
    ensures outcome.Replied? && !IsOk(outcome.status) && !outcome.payload.Unreadable? ==>
      r == if ResponseAccepts(outcome.status) then Response(outcome.status, ErrorBody(UpstreamError(outcome.status)))
           else Response(500, ErrorBody(FetchFailed))
    ensures outcome.Replied? && IsOk(outcome.status) ==>
      r == match outcome.payload
           case Json(d) => Response(200, Relayed(d))
           case _ => Response(500, ErrorBody(FetchFailed))
  {
    match outcome
    case Threw => Response(500, ErrorBody(FetchFailed))
    case Replied(status, payload) =>
      if !IsOk(status) then
        if payload.Unreadable? || !ResponseAccepts(status) then Response(500, ErrorBody(FetchFailed))
        else Response(status, ErrorBody(UpstreamError(status)))
      else if !payload.Json? then Response(500, ErrorBody(FetchFailed))
      else Response(200, Relayed(payload.value))
  }

  /**
   * `GET /api/products`.  Every answer is either relayed data with status
   * 200 or an `{ error }` object with a status of at least 300.
   */
  function Get<D>(keyword: Option<string>, accessKey: Option<string>, secretKey: Option<string>,
                  iso: string, hmacHex: (string, string) -> string,
                  fetch: Outbound -> Upstream<D>): (r: Response<D>)
    ensures r.body.Relayed? <==> r.status == 200
    ensures r.body.ErrorBody? ==> 300 <= r.status <= 599 && ResponseAccepts(r.status)
  {
    match Prepare(keyword, accessKey, secretKey, iso, hmacHex)
    case Answer(response) => response
    case Send(request) => Relay(fetch(request))
  }

  // ---------------------------------------------------------------------
  // Properties of the handler
  // ---------------------------------------------------------------------

  /**
   * Without a keyword the answer is 400 whatever the credentials, the clock,
   * the signer and the upstream would do: none of them is consulted.
   */
  lemma MissingKeywordRejected<D>(keyword: Option<string>,
                                  accessKey: Option<string>, secretKey: Option<string>, iso: string,
                                  hmacHex: (string, string) -> string, fetch: Outbound -> Upstream<D>,
                                  accessKey': Option<string>, secretKey': Option<string>, iso': string,
                                  hmacHex': (string, string) -> string, fetch': Outbound -> Upstream<D>)
    requires !IsPresent(keyword)
    ensures Get(keyword, accessKey, secretKey, iso, hmacHex, fetch) == Response(400, ErrorBody(KeywordRequired))
    ensures Get(keyword, accessKey, secretKey, iso, hmacHex, fetch) == Get(keyword, accessKey', secretKey', iso', hmacHex', fetch')
  {
  }

  /** With a keyword but a missing credential the answer is 500, and neither signer nor upstream is consulted. */
  lemma MissingCredentialRejected<D>(keyword: Option<string>, accessKey: Option<string>, secretKey: Option<string>,
                                     iso: string, hmacHex: (string, string) -> string, fetch: Outbound -> Upstream<D>,
                                     iso': string, hmacHex': (string, string) -> string, fetch': Outbound -> Upstream<D>)
    requires IsPresent(keyword) && !(IsPresent(accessKey) && IsPresent(secretKey))
    ensures Get(keyword, accessKey, secretKey, iso, hmacHex, fetch) == Response(500, ErrorBody(ConfigurationError))
    ensures Get(keyword, accessKey, secretKey, iso, hmacHex, fetch) == Get(keyword, accessKey, secretKey, iso', hmacHex', fetch')
  {
  }

  /**
   * With everything present the handler sends one signed request (the date
   * header is the timestamp that was signed, the body carries the keyword
   * unchanged and the fixed limit) and answers what the upstream outcome maps to.
   */
  lemma SignedRequestForwarded<D>(keyword: Option<string>, accessKey: Option<string>, secretKey: Option<string>,
                                  iso: string, hmacHex: (string, string) -> string, fetch: Outbound -> Upstream<D>)
    requires IsPresent(keyword) && IsPresent(accessKey) && IsPresent(secretKey)
    ensures var step := Prepare<D>(keyword, accessKey, secretKey, iso, hmacHex);
      && step.Send?
      && step.request.url == ApiHost + SearchPath && step.request.httpMethod == RequestMethod
      && step.request.ceaDate == Timestamp(iso)
      && step.request.authorization == AuthorizationHeader(accessKey.value, hmacHex(secretKey.value, SigningMessage(step.request.ceaDate)))
      && step.request.body == SearchBody(keyword.value, SearchLimit)
      && Get(keyword, accessKey, secretKey, iso, hmacHex, fetch) == Relay(fetch(step.request))
  {
  }

  /**
   * A readable upstream failure is reported with its own status, which can
   * be read back from the message, exactly when a `Response` accepts that
   * status with a body; otherwise building the reply throws and the answer
   * is the generic 500.
   */
  lemma UpstreamFailurePassesStatus<D>(status: HttpStatus, payload: Payload<D>)
    requires !IsOk(status) && !payload.Unreadable?
    ensures Relay(Replied(status, payload)).status == status <==> ResponseAccepts(status)
    ensures ResponseAccepts(status) ==> var e := Relay(Replied(status, payload)).body.error;
      e[..|UpstreamFailedPrefix|] == UpstreamFailedPrefix && ParseDigits(e[|UpstreamFailedPrefix|..]) == status
    ensures !ResponseAccepts(status) ==> Relay(Replied(status, payload)) == Response(500, ErrorBody(FetchFailed))
  {
  }

  /** A `304 Not Modified` reply cannot be passed on with an error body, so it becomes the generic 500. */
  lemma NotModifiedBecomesFetchFailed<D>(payload: Payload<D>)
    ensures Relay(Replied(304, payload)) == Response(500, ErrorBody(FetchFailed))
  {
  }
}
