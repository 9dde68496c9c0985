/**
 * The HTTP client of the web app (http.service.ts): reading a cookie out of
 * the cookie string, the headers, URL and body of a request, the reading of
 * the response and the mapping of every failure to an HttpError, and the
 * client state one request changes: the cached CSRF token, the loading flag,
 * the notifications shown and the logouts triggered. The network is given:
 * each fetch a request may make has its response or its thrown error in a
 * `Network` record.
 */
module HttpService {
  import opened Outcomes
  import opened Text

  datatype HttpError = HttpError(message: string, code: int)

  /** What a `throw` carries: an HttpError, another Error known by its name, or a value that is no Error. */
  datatype Thrown = ThrownHttpError(err: HttpError) | ThrownError(name: string, message: string) | ThrownValue

  const CsrfCookie: string := "XSRF-TOKEN"
  const CsrfHeader: string := "X-XSRF-TOKEN"
  const AuthEndpoint: string := "auth/refresh"
  const CsrfFailure: string := "Failed to fetch CSRF token"

  // Cookies (the "; "-separated cookie string of section 5.4 of RFC 6265)

  function CookieSeparator(name: string): string {
    "; " + name + "="
  }

  /**
   * `getCookie`: the cookie string is prefixed with "; " and split at
   * "; name="; only a split into exactly two parts gives a value, the
   * second part up to its first ';', and an empty value is none.
   */
  function GetCookie(cookies: string, name: string): Option<string> {
    var parts := SplitOn("; " + cookies, CookieSeparator(name));
    if |parts| == 2 then
      var value := SplitOn(parts[1], ";")[0];
      if value == "" then None else Some(value)
    else None
  }

  /** `v` is the value that `rest`, the text after the one "; name=", starts with. */
  predicate SoleValue(rest: string, name: string, v: string) {
    !Contains(rest, CookieSeparator(name)) && v != "" && !Contains(v, ";")
    && HasPrefix(rest, v) && (|v| == |rest| || rest[|v|] == ';')
  }

  /** The first part of a split at ";" is a prefix without ';' that ends the string or stops at a ';'. */
  lemma FirstPart(s: string)
    ensures HasPrefix(s, SplitOn(s, ";")[0]) && !Contains(SplitOn(s, ";")[0], ";")
    ensures |SplitOn(s, ";")[0]| == |s| || s[|SplitOn(s, ";")[0]|] == ';'
  {
    SplitPartsFree(s, ";");
    match FindSub(s, ";")
    case None =>
    case Some(i) =>
      assert IsAt(s, ";", i);
      assert s[i] == s[i..i + 1][0];
  }

  /**
   * A value is found only when "; name=" occurs in "; " + cookies and does
   * not occur again after its first occurrence; the value is the non-empty
   * text after it up to the next ';' or the end.
   */
  lemma GetCookieOnce(cookies: string, name: string)
    requires GetCookie(cookies, name).Some?
    ensures FindSub("; " + cookies, CookieSeparator(name)).Some?
    ensures SoleValue(("; " + cookies)[FindSub("; " + cookies, CookieSeparator(name)).value + |CookieSeparator(name)|..],
      name, GetCookie(cookies, name).value)
  {
    var jar := "; " + cookies;
    var sep := CookieSeparator(name);
    var f := FindSub(jar, sep);
    assert f.Some?;
    var rest := jar[f.value + |sep|..];
    assert SplitOn(jar, sep) == [jar[..f.value]] + SplitOn(rest, sep);
    assert FindSub(rest, sep).None?;
    assert SplitOn(rest, sep) == [rest];
    FirstPart(rest);
  }

  /**
   * The converse of `GetCookieOnce`: whatever comes before the first
   * "; name=", a sole value after it is what `getCookie` returns.
   */
  lemma GetCookieSole(cookies: string, name: string, v: string)
    requires FindSub("; " + cookies, CookieSeparator(name)).Some?
    requires SoleValue(("; " + cookies)[FindSub("; " + cookies, CookieSeparator(name)).value + |CookieSeparator(name)|..], name, v)
    ensures GetCookie(cookies, name) == Some(v)
  {
    var jar := "; " + cookies;
    var sep := CookieSeparator(name);
    var f := FindSub(jar, sep).value;
    var rest := jar[f + |sep|..];
    assert SplitOn(jar, sep) == [jar[..f]] + SplitOn(rest, sep);
    assert FindSub(rest, sep).None?;
    assert SplitOn(rest, sep) == [rest];
    if |v| == |rest| {
      assert rest == v;
      assert FindSub(v, ";").None?;
    } else {
      var tail := rest[|v|..];
      assert rest == v + tail;
      FirstSemicolon(v, tail);
      assert rest[..|v|] == v;
    }
  }

  lemma FirstSemicolon(v: string, tail: string)
    requires !Contains(v, ";") && |tail| > 0 && tail[0] == ';'
    ensures FindSub(v + tail, ";") == Some(|v|)
  {
    var s := v + tail;
    assert s[|v|..|v| + 1] == [tail[0]];
    assert IsAt(s, ";", |v|);
    forall j: nat | j < |v| ensures !IsAt(s, ";", j) {
      assert !IsAt(v, ";", j);
      assert s[j..j + 1] == v[j..j + 1];
    }
  }

  /** The first cookie of a cookie string with no second cookie of that name reads back. */
  lemma GetCookieFirst(name: string, v: string, tail: string)
    requires v != "" && !Contains(v, ";")
    requires tail == "" || tail[0] == ';'
    requires !Contains(v + tail, CookieSeparator(name))
    ensures GetCookie(name + "=" + v + tail, name) == Some(v)
  {
    var sep := CookieSeparator(name);
    var jar := "; " + (name + "=" + v + tail);
    assert jar == sep + (v + tail);
    assert jar[..|sep|] == sep;
    assert FindSub(jar, sep) == Some(0);
    assert jar[|sep|..] == v + tail;
    assert SplitOn(v + tail, sep) == [v + tail];
    assert SplitOn(jar, sep) == [jar[..0]] + [v + tail];
    if tail == "" {
      assert v + tail == v;
      assert SplitOn(v, ";") == [v];
    } else {
      FirstSemicolon(v, tail);
      assert (v + tail)[..|v|] == v;
    }
  }

  // Headers

  type Headers = map<string, string>

  predicate Truthy(token: Option<string>) {
    token.Some? && token.value != ""
  }

  function TokenHeader(token: Option<string>): Headers {
    if Truthy(token) then map[CsrfHeader := token.value] else map[]
  }

  /** `getHeaders`: the JSON headers, the CSRF header for a truthy token, and the caller's headers over both. */
  function GetHeaders(token: Option<string>, extra: Headers): Headers {
    map["Content-Type" := "application/json", "accept" := "application/json"] + TokenHeader(token) + extra
  }

  /**
   * The JSON headers always carry Content-Type and accept, carry the CSRF
   * header exactly when the token is truthy or the caller sets it, and the
   * caller's values win; every other key is one of the two JSON headers.
   */
  lemma GetHeadersFacts(token: Option<string>, extra: Headers)
    ensures GetHeaders(token, extra).Keys == {"Content-Type", "accept"} + TokenHeader(token).Keys + extra.Keys
    ensures forall k :: k in extra ==> GetHeaders(token, extra)[k] == extra[k]
    ensures "Content-Type" !in extra ==> GetHeaders(token, extra)["Content-Type"] == "application/json"
    ensures "accept" !in extra ==> GetHeaders(token, extra)["accept"] == "application/json"
    ensures CsrfHeader in GetHeaders(token, extra) <==> Truthy(token) || CsrfHeader in extra
    ensures Truthy(token) && CsrfHeader !in extra ==> GetHeaders(token, extra)[CsrfHeader] == token.value
    ensures forall k :: k in GetHeaders(token, extra) && k !in extra && k != CsrfHeader ==>
      GetHeaders(token, extra)[k] == "application/json"
  {
  }

  /** The headers of a FormData request: the caller's headers with the CSRF header over them, and no Content-Type of its own. */
  function FormHeaders(token: Option<string>, extra: Headers): Headers {
    extra + TokenHeader(token)
  }

  /** For FormData the token wins over the caller's header, the reverse of the JSON headers. */
  lemma FormHeadersFacts(token: Option<string>, extra: Headers)
    ensures FormHeaders(token, extra).Keys == extra.Keys + TokenHeader(token).Keys
    ensures Truthy(token) ==> FormHeaders(token, extra)[CsrfHeader] == token.value
    ensures forall k :: k in extra && (k != CsrfHeader || !Truthy(token)) ==> FormHeaders(token, extra)[k] == extra[k]
    ensures "Content-Type" in FormHeaders(token, extra) <==> "Content-Type" in extra
  {
  }

  // Error mapping

  /** `handleHttpError`: the HttpError thrown after the notification is set. */
  function HandleHttpError(t: Thrown, defaultMessage: string, defaultCode: int): HttpError {
    match t
    case ThrownHttpError(e) => e
    case ThrownError(_, message) => HttpError(message, defaultCode)
    case ThrownValue => HttpError(defaultMessage, defaultCode)
  }

  /**
   * An HttpError goes through unchanged, any other Error keeps its message
   * and takes the default code, anything else takes both defaults; handling
   * the result a second time changes nothing.
   */
  lemma HandleHttpErrorFacts(t: Thrown, defaultMessage: string, defaultCode: int, message': string, code': int)
    ensures t.ThrownHttpError? ==> HandleHttpError(t, defaultMessage, defaultCode) == t.err
    ensures t.ThrownError? ==> HandleHttpError(t, defaultMessage, defaultCode) == HttpError(t.message, defaultCode)
    ensures t.ThrownValue? ==> HandleHttpError(t, defaultMessage, defaultCode) == HttpError(defaultMessage, defaultCode)
    ensures !t.ThrownHttpError? ==> HandleHttpError(t, defaultMessage, defaultCode).code == defaultCode
    ensures HandleHttpError(ThrownHttpError(HandleHttpError(t, defaultMessage, defaultCode)), message', code')
      == HandleHttpError(t, defaultMessage, defaultCode)
  {
  }

  const TimedOut: HttpError := HttpError("Request timed out", 408)
  const NetworkDown: HttpError := HttpError("Network error: Failed to connect to the server", 503)
  const UnknownError: HttpError := HttpError("An unknown error occurred", 500)

  /**
   * The outer catch of `httpService` as written: every Error, the
   * HttpErrors thrown inside the request included, is an Error, so only its
   * name decides, and a fetch TypeError falls under code 500 before the
   * network-error test is reached.
   */
  function CatchAsWritten(t: Thrown): HttpError {
    match t
    case ThrownHttpError(e) => HttpError(e.message, 500)
    case ThrownError(name, message) => if name == "AbortError" then TimedOut else HttpError(message, 500)
    case ThrownValue => UnknownError
  }

  /** As written, the outer catch only ever yields 408 or 500: the 503 network error never occurs. */
  lemma CatchAsWrittenCodes(t: Thrown)
    ensures CatchAsWritten(t).code == 408 || CatchAsWritten(t).code == 500
    ensures CatchAsWritten(t) != NetworkDown
  {
  }

  /** Two inputs that show it: a 404 HttpError comes out as 500, and a failed fetch as a 500 without the network message. */
  lemma CatchAsWrittenExamples()
    ensures CatchAsWritten(ThrownHttpError(HttpError("Not found", 404))) == HttpError("Not found", 500)
    ensures CatchAsWritten(ThrownError("TypeError", "Failed to fetch")) == HttpError("Failed to fetch", 500)
  {
  }

  /**
   * The outer catch as intended: an HttpError keeps its code, a timeout is
   * 408, a failed fetch is the 503 network error, another Error keeps its
   * message with 500, and anything else is the unknown error.
   */
  function Catch(t: Thrown): HttpError {
    match t
    case ThrownHttpError(e) => e
    case ThrownError(name, message) =>
      if name == "AbortError" then TimedOut
      else if name == "TypeError" && message == "Failed to fetch" then NetworkDown
      else HttpError(message, 500)
    case ThrownValue => UnknownError
  }

  lemma CatchFacts(t: Thrown)
    ensures t.ThrownHttpError? ==> Catch(t) == t.err
    ensures !t.ThrownHttpError? ==> Catch(t).code in {408, 500, 503}
    ensures Catch(t).code == 503 <==> t == ThrownError("TypeError", "Failed to fetch") || (t.ThrownHttpError? && t.err.code == 503)
    ensures Catch(t).message == CatchAsWritten(t).message || Catch(t) == NetworkDown
  {
  }

  // Building the request

  /** The request parameters: a FormData (known by an id) or a plain object; each with its query string, an object also with its JSON text. */
  datatype Params = FormParams(form: nat, query: string) | ObjectParams(query: string, json: string)

  /** The options the calls use: extra headers, and whether a blob is wanted. */
  datatype Options = Options(headers: Option<Headers>, blob: bool)

  datatype Call = Call(endpoint: string, verb: string, params: Params, options: Options)

  datatype Body = NoBody | FormBody(form: nat) | JsonText(text: string)

  /** What goes to `fetch`: URL, method, headers and body. */
  datatype Sent = Sent(url: string, verb: string, headers: Headers, body: Body)

  function RequestHeaders(token: Option<string>, call: Call): Headers {
    var extra := call.options.headers.GetOr(map[]);
    if call.params.FormParams? then FormHeaders(token, extra) else GetHeaders(token, extra)
  }

  function RequestUrl(base: string, call: Call): string {
    base + "/" + call.endpoint + (if call.verb == "get" then "?" + call.params.query else "")
  }

  function RequestBody(call: Call): Body {
    if call.verb == "get" then NoBody
    else match call.params
      case FormParams(form, _) => FormBody(form)
      case ObjectParams(_, json) => JsonText(json)
  }

  /** The request as intended: the merged headers go out. */
  function SentRequest(base: string, token: Option<string>, call: Call): Sent {
    Sent(RequestUrl(base, call), call.verb, RequestHeaders(token, call), RequestBody(call))
  }

  /** The request as written: the options are spread over the config last, so the caller's own `headers` replace the merged ones. */
  function SentAsWritten(base: string, token: Option<string>, call: Call): Sent {
    var headers := if call.options.headers.Some? then call.options.headers.value else RequestHeaders(token, call);
    Sent(RequestUrl(base, call), call.verb, headers, RequestBody(call))
  }

  /** How the request configuration is put together: as written, with the options spread last, or as intended, with the headers merged. */
  datatype Spread = OptionsLast | HeadersMerged

  function Built(spread: Spread, base: string, token: Option<string>, call: Call): (r: Sent)
    ensures spread == OptionsLast ==> r == SentAsWritten(base, token, call)
    ensures spread == HeadersMerged ==> r == SentRequest(base, token, call)
  {
    match spread
    case OptionsLast => SentAsWritten(base, token, call)
    case HeadersMerged => SentRequest(base, token, call)
  }

  /** GET puts the parameters in the query string and sends no body; any other method sends FormData as it is or the JSON text. */
  lemma RequestShape(base: string, token: Option<string>, call: Call)
    ensures call.verb == "get" ==> (SentRequest(base, token, call).body == NoBody
      && SentRequest(base, token, call).url == base + "/" + call.endpoint + "?" + call.params.query)
    ensures call.verb != "get" ==> SentRequest(base, token, call).url == base + "/" + call.endpoint
    ensures call.verb != "get" && call.params.FormParams? ==> SentRequest(base, token, call).body == FormBody(call.params.form)
    ensures call.verb != "get" && call.params.ObjectParams? ==> SentRequest(base, token, call).body == JsonText(call.params.json)
    ensures Truthy(token) && (call.params.FormParams? || call.options.headers.None? || CsrfHeader !in call.options.headers.value) ==>
      SentRequest(base, token, call).headers[CsrfHeader] == token.value
  {
    GetHeadersFacts(token, call.options.headers.GetOr(map[]));
    FormHeadersFacts(token, call.options.headers.GetOr(map[]));
  }

  /**
   * As written, a JSON call with headers of its own sends neither the CSRF
   * header nor the JSON Content-Type unless it names them; the intended
   * request carries both.
   */
  lemma OptionHeadersReplaceMerged(base: string, token: Option<string>, call: Call)
    requires call.options.headers.Some? && call.params.ObjectParams? && Truthy(token)
    requires CsrfHeader !in call.options.headers.value && "Content-Type" !in call.options.headers.value
    ensures CsrfHeader !in SentAsWritten(base, token, call).headers
    ensures "Content-Type" !in SentAsWritten(base, token, call).headers
    ensures SentRequest(base, token, call).headers[CsrfHeader] == token.value
    ensures SentRequest(base, token, call).headers["Content-Type"] == "application/json"
  {
    GetHeadersFacts(token, call.options.headers.value);
  }

  // Reading the response

  datatype Response = Response(status: int, statusText: string, text: string)

  predicate IsOk(r: Response) {
    200 <= r.status <= 299
  }

  /** A fetch either resolves with a response or throws. */
  datatype Fetch = Fetched(response: Response) | FetchThrew(thrown: Thrown)

  /** A parsed JSON object, with the `message` field when it is a string. */
  datatype JsonValue = JsonValue(message: Option<string>)

  /** The results of a response: null, parsed JSON, or the raw text that did not parse. */
  datatype Results = NullResults | JsonResults(value: JsonValue) | TextResults(text: string)

  /** The body of a response other than a blob; `parse` is JSON.parse, None where it throws. */
  function ParseBody(r: Response, parse: string -> Option<JsonValue>): Results {
    if r.status == 204 || r.text == "" then NullResults
    else match parse(r.text)
      case None => TextResults(r.text)
      case Some(v) => JsonResults(v)
  }

  /** No content and empty text give null; text that does not parse comes back as it is; the rest is its JSON. */
  lemma ParseBodyCases(r: Response, parse: string -> Option<JsonValue>)
    ensures ParseBody(r, parse) == NullResults <==> r.status == 204 || r.text == ""
    ensures ParseBody(r, parse).TextResults? <==> r.status != 204 && r.text != "" && parse(r.text).None?
    ensures ParseBody(r, parse).TextResults? ==> ParseBody(r, parse).text == r.text
    ensures ParseBody(r, parse).JsonResults? ==> parse(r.text) == Some(ParseBody(r, parse).value)
  {
  }

  /** `results?.message || response.statusText`. */
  function ErrorMessage(results: Results, statusText: string): (m: string)
    ensures results.JsonResults? && results.value.message.Some? && results.value.message.value != "" ==>
      m == results.value.message.value
    ensures !(results.JsonResults? && results.value.message.Some? && results.value.message.value != "") ==> m == statusText
  {
    if results.JsonResults? && results.value.message.Some? && results.value.message.value != "" then results.value.message.value
    else statusText
  }

  /** `fetchCsrfToken`: the decoded XSRF-TOKEN cookie after a successful fetch of the token endpoint. */
  function FetchCsrf(fetch: Fetch, cookies: string, decode: string -> string): Result<string, HttpError> {
    match fetch
    case FetchThrew(t) => Err(HandleHttpError(t, CsrfFailure, 500))
    case Fetched(r) =>
      if !IsOk(r) then Err(HttpError(CsrfFailure, 500))
      else match GetCookie(cookies, CsrfCookie)
        case None => Err(HttpError(CsrfFailure, 500))
        case Some(c) => Ok(decode(c))
  }

  /** A token comes only from an ok response and a readable cookie; a failure that was not an HttpError thrown by the fetch is a 500. */
  lemma FetchCsrfFacts(fetch: Fetch, cookies: string, decode: string -> string)
    ensures FetchCsrf(fetch, cookies, decode).Ok? <==> fetch.Fetched? && IsOk(fetch.response) && GetCookie(cookies, CsrfCookie).Some?
    ensures FetchCsrf(fetch, cookies, decode).Ok? ==> FetchCsrf(fetch, cookies, decode).value == decode(GetCookie(cookies, CsrfCookie).value)
    ensures fetch.Fetched? && FetchCsrf(fetch, cookies, decode).Err? ==> FetchCsrf(fetch, cookies, decode).error == HttpError(CsrfFailure, 500)
    ensures FetchCsrf(fetch, cookies, decode).Err? && !(fetch.FetchThrew? && fetch.thrown.ThrownHttpError?) ==>
      FetchCsrf(fetch, cookies, decode).error.code == 500
  {
  }

  // The request

  /**
   * The responses and errors of every fetch a request may make: the token
   * fetch and the cookies after it, the request itself, the token fetch of
   * a 419 retry and the cookies after it, the session refresh of a 401, and
   * the retried request.
   */
  datatype Network = Network(csrf: Fetch, csrfCookies: string, first: Fetch,
                             csrfAgain: Fetch, cookiesAgain: string, refresh: Fetch, retry: Fetch)

  datatype Value = Data(results: Results) | Blob

  datatype TryResult = Returned(value: Value) | Threw(thrown: Thrown)

  /** The effect of the `try` block: the token after it, the notifications and logouts on its way, and what it returned or threw. */
  datatype TryOutcome = TryOutcome(token: Option<string>, notices: seq<string>, logouts: nat, result: TryResult)

  /** What came back after a 401: the JSON of a retry after a successful refresh, or none when any step failed. */
  function Refreshed(refresh: Fetch, retry: Fetch, parse: string -> Option<JsonValue>): Option<JsonValue> {
    if refresh.Fetched? && IsOk(refresh.response) && retry.Fetched? && IsOk(retry.response) then parse(retry.response.text)
    else None
  }

  const Unauthorized: HttpError := HttpError("Unauthorized", 401)

  /** The `try` block of `httpService`, once the request is sent with `token`. */
  function TryBlock(token: Option<string>, call: Call, net: Network, parse: string -> Option<JsonValue>,
                    decode: string -> string): TryOutcome {
    match net.first
    case FetchThrew(t) => TryOutcome(token, [], 0, Threw(t))
    case Fetched(r) =>
      if call.options.blob then
        if IsOk(r) then TryOutcome(token, [], 0, Returned(Blob))
        else TryOutcome(token, [], 0, Threw(ThrownHttpError(HttpError(r.statusText, r.status))))
      else
        var results := ParseBody(r, parse);
        if IsOk(r) then TryOutcome(token, [], 0, Returned(Data(results)))
        else if r.status == 419 then
          match FetchCsrf(net.csrfAgain, net.cookiesAgain, decode)
          case Err(e) => TryOutcome(token, [e.message], 0, Threw(ThrownHttpError(e)))
          case Ok(renewed) =>
            match net.retry
            case FetchThrew(t) => TryOutcome(Some(renewed), [], 0, Threw(t))
            case Fetched(again) =>
              if IsOk(again) then TryOutcome(Some(renewed), [], 0, Returned(Data(results)))
              else TryOutcome(Some(renewed), [], 0, Threw(ThrownHttpError(HttpError(again.statusText, again.status))))
        else if r.status == 401 && call.endpoint != AuthEndpoint then
          match Refreshed(net.refresh, net.retry, parse)
          case Some(v) => TryOutcome(token, [], 0, Returned(Data(JsonResults(v))))
          case None => TryOutcome(token, [Unauthorized.message], 1, Threw(ThrownHttpError(Unauthorized)))
        else if r.status == 401 then TryOutcome(token, [], 0, Returned(Data(NullResults)))
        else
          var e := HttpError(ErrorMessage(results, r.statusText), r.status);
          TryOutcome(token, [e.message], 0, Threw(ThrownHttpError(e)))
  }

  datatype Reply = Resolved(value: Value) | Rejected(error: HttpError)

  /** The whole effect of one call: the token after it, notifications, logouts, the request sent, and the reply. */
  datatype Exchange = Exchange(token: Option<string>, notices: seq<string>, logouts: nat, sent: Option<Sent>, reply: Reply)

  /**
   * `httpService` with the request built by `spread` and the outer catch
   * `catcher`: a missing token is fetched first and, when that fails, the
   * error is handled twice and no request goes out; otherwise the request
   * is sent and the try block's throw is turned into the rejection by the
   * catch.
   */
  function Request(token: Option<string>, base: string, call: Call, net: Network, parse: string -> Option<JsonValue>,
                   decode: string -> string, spread: Spread, catcher: Thrown -> HttpError): Exchange {
    var pre := if Truthy(token) then Ok(token.value) else FetchCsrf(net.csrf, net.csrfCookies, decode);
    match pre
    case Err(e) => Exchange(token, [e.message, e.message], 0, None, Rejected(e))
    case Ok(tok) =>
      var t := TryBlock(Some(tok), call, net, parse, decode);
      var sent := Some(Built(spread, base, Some(tok), call));
      match t.result
      case Returned(v) => Exchange(t.token, t.notices, t.logouts, sent, Resolved(v))
      case Threw(thrown) => Exchange(t.token, t.notices + [catcher(thrown).message], t.logouts, sent, Rejected(catcher(thrown)))
  }

  /** The try block logs out at most once, and only when it throws; returning, it shows nothing. */
  lemma TryFacts(token: Option<string>, call: Call, net: Network, parse: string -> Option<JsonValue>, decode: string -> string)
    ensures TryBlock(token, call, net, parse, decode).logouts <= 1
    ensures TryBlock(token, call, net, parse, decode).result.Returned? ==>
      TryBlock(token, call, net, parse, decode).notices == [] && TryBlock(token, call, net, parse, decode).logouts == 0
  {
  }

  /**
   * Whatever the catch: a rejection is the last notification shown, and a
   * resolved call shows none and logs nobody out.
   */
  lemma RequestNotices(token: Option<string>, base: string, call: Call, net: Network, parse: string -> Option<JsonValue>,
                       decode: string -> string, spread: Spread, catcher: Thrown -> HttpError)
    ensures Request(token, base, call, net, parse, decode, spread, catcher).reply.Rejected? ==>
      |Request(token, base, call, net, parse, decode, spread, catcher).notices| > 0
      && Request(token, base, call, net, parse, decode, spread, catcher).notices[|Request(token, base, call, net, parse, decode, spread, catcher).notices| - 1]
         == Request(token, base, call, net, parse, decode, spread, catcher).reply.error.message
    ensures Request(token, base, call, net, parse, decode, spread, catcher).reply.Resolved? ==>
      Request(token, base, call, net, parse, decode, spread, catcher).notices == [] && Request(token, base, call, net, parse, decode, spread, catcher).logouts == 0
  {
    var pre := if Truthy(token) then Ok(token.value) else FetchCsrf(net.csrf, net.csrfCookies, decode);
    if pre.Ok? {
      TryFacts(Some(pre.value), call, net, parse, decode);
    }
  }

  /** At most one logout, and no request goes out exactly when the token was missing and could not be fetched. */
  lemma RequestSent(token: Option<string>, base: string, call: Call, net: Network, parse: string -> Option<JsonValue>,
                    decode: string -> string, spread: Spread, catcher: Thrown -> HttpError)
    ensures Request(token, base, call, net, parse, decode, spread, catcher).logouts <= 1
    ensures Request(token, base, call, net, parse, decode, spread, catcher).sent.None? <==>
      !Truthy(token) && FetchCsrf(net.csrf, net.csrfCookies, decode).Err?
  {
    var pre := if Truthy(token) then Ok(token.value) else FetchCsrf(net.csrf, net.csrfCookies, decode);
    if pre.Ok? {
      TryFacts(Some(pre.value), call, net, parse, decode);
    }
  }

  /** A cached truthy token is never fetched again: the token fetch's outcome does not matter. */
  lemma TokenCached(token: Option<string>, base: string, call: Call, net: Network, parse: string -> Option<JsonValue>,
                    decode: string -> string, spread: Spread, catcher: Thrown -> HttpError, other: Fetch, otherCookies: string)
    requires Truthy(token)
    ensures Request(token, base, call, net.(csrf := other, csrfCookies := otherCookies), parse, decode, spread, catcher)
      == Request(token, base, call, net, parse, decode, spread, catcher)
  {
  }

  /** A blob comes back exactly when a blob was asked for and the first response is ok. */
  lemma BlobReply(token: Option<string>, base: string, call: Call, net: Network, parse: string -> Option<JsonValue>,
                  decode: string -> string, spread: Spread, catcher: Thrown -> HttpError)
    requires Truthy(token)
    ensures Request(token, base, call, net, parse, decode, spread, catcher).reply == Resolved(Blob) <==>
      call.options.blob && net.first.Fetched? && IsOk(net.first.response)
  {
  }

  /** A 401 from the refresh endpoint itself resolves to null: no notification, no logout. */
  lemma SilentRefresh(token: Option<string>, base: string, call: Call, net: Network, parse: string -> Option<JsonValue>,
                      decode: string -> string, spread: Spread, catcher: Thrown -> HttpError)
    requires Truthy(token) && call.endpoint == AuthEndpoint && !call.options.blob
    requires net.first.Fetched? && net.first.response.status == 401
    ensures Request(token, base, call, net, parse, decode, spread, catcher).reply == Resolved(Data(NullResults))
    ensures Request(token, base, call, net, parse, decode, spread, catcher).notices == []
    ensures Request(token, base, call, net, parse, decode, spread, catcher).logouts == 0
  {
  }

  /**
   * A 401 elsewhere whose refresh or retry fails logs the user out once and
   * shows "Unauthorized"; the intended catch rejects with 401, the written
   * one with 500.
   */
  lemma UnauthorizedLogsOut(token: Option<string>, base: string, call: Call, net: Network,
                            parse: string -> Option<JsonValue>, decode: string -> string, spread: Spread)
    requires Truthy(token) && call.endpoint != AuthEndpoint && !call.options.blob
    requires net.first.Fetched? && net.first.response.status == 401
    requires Refreshed(net.refresh, net.retry, parse).None?
    ensures Request(token, base, call, net, parse, decode, spread, Catch).logouts == 1
    ensures Request(token, base, call, net, parse, decode, spread, Catch).notices == ["Unauthorized", "Unauthorized"]
    ensures Request(token, base, call, net, parse, decode, spread, Catch).reply == Rejected(Unauthorized)
    ensures Request(token, base, call, net, parse, decode, spread, CatchAsWritten).reply == Rejected(HttpError("Unauthorized", 500))
  {
  }

  /**
   * A failed response other than 419 and 401 is rejected with the server's
   * message or the status text; the intended catch keeps its status, the
   * written one turns it into 500 (a 404 included).
   */
  lemma StatusKept(token: Option<string>, base: string, call: Call, net: Network,
                   parse: string -> Option<JsonValue>, decode: string -> string, spread: Spread)
    requires Truthy(token) && !call.options.blob && net.first.Fetched?
    requires !IsOk(net.first.response) && net.first.response.status != 419 && net.first.response.status != 401
    ensures Request(token, base, call, net, parse, decode, spread, Catch).reply ==
      Rejected(HttpError(ErrorMessage(ParseBody(net.first.response, parse), net.first.response.statusText), net.first.response.status))
    ensures Request(token, base, call, net, parse, decode, spread, CatchAsWritten).reply ==
      Rejected(HttpError(ErrorMessage(ParseBody(net.first.response, parse), net.first.response.statusText), 500))
  {
  }

  /** When the token cannot be fetched, its error is shown twice, nothing is sent, and the call is rejected with it. */
  lemma TokenFailure(token: Option<string>, base: string, call: Call, net: Network, parse: string -> Option<JsonValue>,
                     decode: string -> string, spread: Spread, catcher: Thrown -> HttpError)
    requires !Truthy(token) && FetchCsrf(net.csrf, net.csrfCookies, decode).Err?
    ensures Request(token, base, call, net, parse, decode, spread, catcher) ==
      Exchange(token, [FetchCsrf(net.csrf, net.csrfCookies, decode).error.message, FetchCsrf(net.csrf, net.csrfCookies, decode).error.message],
               0, None, Rejected(FetchCsrf(net.csrf, net.csrfCookies, decode).error))
  {
  }

  /** With a token at hand, the request that goes out is the one `spread` builds, whatever the network answers. */
  lemma RequestSends(token: Option<string>, base: string, call: Call, net: Network, parse: string -> Option<JsonValue>,
                     decode: string -> string, spread: Spread, catcher: Thrown -> HttpError)
    requires Truthy(token)
    ensures Request(token, base, call, net, parse, decode, spread, catcher).sent == Some(Built(spread, base, token, call))
  {
  }

  /**
   * End to end, as written: a JSON call with headers of its own, made with
   * a cached token, goes out without the CSRF header and without the JSON
   * Content-Type; as intended it carries both.
   */
  lemma AsWrittenCallOmitsCsrf(token: Option<string>, base: string, call: Call, net: Network,
                               parse: string -> Option<JsonValue>, decode: string -> string, catcher: Thrown -> HttpError)
    requires call.options.headers.Some? && call.params.ObjectParams? && Truthy(token)
    requires CsrfHeader !in call.options.headers.value && "Content-Type" !in call.options.headers.value
    ensures var x := Request(token, base, call, net, parse, decode, OptionsLast, catcher).sent;
      x.Some? && CsrfHeader !in x.value.headers && "Content-Type" !in x.value.headers
    ensures var x := Request(token, base, call, net, parse, decode, HeadersMerged, catcher).sent;
      x.Some? && x.value.headers[CsrfHeader] == token.value && x.value.headers["Content-Type"] == "application/json"
  {
    OptionHeadersReplaceMerged(base, token, call);
  }

  /** The client's state across calls: the module-level token and the app and session effects one call has. */
  class Client {
    const base: string
    var csrfToken: Option<string>
    var loading: bool
    var notices: seq<string>
    var logouts: nat

    constructor(base: string)
      ensures this.base == base && csrfToken == None && !loading && notices == [] && logouts == 0
    {
      this.base := base;
      csrfToken := None;
      loading := false;
      notices := [];
      logouts := 0;
    }

    /** One call of `httpService`, with the request built by `spread` and the outer catch `catcher`; loading is off afterwards whatever happened. */
    method Send(call: Call, net: Network, parse: string -> Option<JsonValue>, decode: string -> string,
                spread: Spread, catcher: Thrown -> HttpError)
      returns (sent: Option<Sent>, reply: Reply)
      modifies this
      ensures csrfToken == Request(old(csrfToken), base, call, net, parse, decode, spread, catcher).token
      ensures notices == old(notices) + Request(old(csrfToken), base, call, net, parse, decode, spread, catcher).notices
      ensures logouts == old(logouts) + Request(old(csrfToken), base, call, net, parse, decode, spread, catcher).logouts
      ensures sent == Request(old(csrfToken), base, call, net, parse, decode, spread, catcher).sent
      ensures reply == Request(old(csrfToken), base, call, net, parse, decode, spread, catcher).reply
      ensures !loading
    {
      if !Truthy(csrfToken) {
        loading := true;
        var fetched := FetchCsrf(net.csrf, net.csrfCookies, decode);
        loading := false;
        if fetched.Err? {
          notices := notices + [fetched.error.message, fetched.error.message];
          return None, Rejected(fetched.error);
        }
        csrfToken := Some(fetched.value);
      }
      loading := true;
      var url := base + "/" + call.endpoint;
      if call.verb == "get" {
        url := url + "?" + call.params.query;
      }
      assert url == RequestUrl(base, call);
      var body := NoBody;
      if call.verb != "get" {
        body := if call.params.FormParams? then FormBody(call.params.form) else JsonText(call.params.json);
      }
      assert body == RequestBody(call);
      var headers := RequestHeaders(csrfToken, call);
      if spread == OptionsLast && call.options.headers.Some? {
        headers := call.options.headers.value;
      }
      sent := Some(Sent(url, call.verb, headers, body));
      var outcome := TryBlock(csrfToken, call, net, parse, decode);
      csrfToken := outcome.token;
      notices := notices + outcome.notices;
      logouts := logouts + outcome.logouts;
      match outcome.result {
        case Returned(v) =>
          reply := Resolved(v);
        case Threw(t) =>
          var e := catcher(t);
          notices := notices + [e.message];
          reply := Rejected(e);
      }
      loading := false;
    }
  }
}
