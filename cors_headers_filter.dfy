/**
 * The CORS filter that runs in front of every request. For a request with a
 * non-blank Origin header it writes the CORS headers into the response and,
 * for a preflight (an OPTIONS request), answers 204 itself instead of passing
 * the request on to the next stage.
 */
module CorsHeadersFilter {
  import opened Strings

  const ALLOW_ORIGIN: string := "Access-Control-Allow-Origin"
  const VARY: string := "Vary"
  const ALLOW_CREDENTIALS: string := "Access-Control-Allow-Credentials"
  const ALLOW_HEADERS: string := "Access-Control-Allow-Headers"
  const ALLOW_METHODS: string := "Access-Control-Allow-Methods"
  const EXPOSE_HEADERS: string := "Access-Control-Expose-Headers"
  const CONTENT_TYPE: string := "Content-Type"
  const MAX_AGE: string := "Access-Control-Max-Age"

  const VARY_VALUE: string := "Origin"
  const ALLOW_CREDENTIALS_VALUE: string := "true"
  const ALLOW_HEADERS_VALUE: string := "Content-Type, Authorization"
  const ALLOW_METHODS_VALUE: string := "GET, POST, PUT, DELETE, OPTIONS"
  const EXPOSE_HEADERS_VALUE: string := "Location, X-Request-Id"
  const CONTENT_TYPE_VALUE: string := "application/json"
  const MAX_AGE_VALUE: string := "3600"

  const OPTIONS: string := "OPTIONS"

  /** HttpServletResponse.SC_NO_CONTENT */
  const SC_NO_CONTENT: int := 204

  /** The eight header names the filter may write. */
  const CORS_HEADER_NAMES: set<string> :=
    {ALLOW_ORIGIN, VARY, ALLOW_CREDENTIALS, ALLOW_HEADERS, ALLOW_METHODS,
     EXPOSE_HEADERS, CONTENT_TYPE, MAX_AGE}

  /** What the filter reads of the request: the Origin header and the method. */
  datatype Request = Request(origin: Option<string>, httpMethod: string)

  /** What the response looks like: its header table and its status. */
  datatype ResponseState = ResponseState(headers: map<string, string>, status: int)

  /** What the filter leaves behind: the response, and whether the chain ran on. */
  datatype Outcome = Outcome(response: ResponseState, forwarded: bool)

  /** The response the filter writes into: a header table and a status. */
  class Response {
    var headers: map<string, string>
    var status: int

    constructor (headers: map<string, string>, status: int)
      ensures this.headers == headers && this.status == status
    {
      this.headers := headers;
      this.status := status;
    }

    /** The header table and status as a value. */
    function State(): (state: ResponseState)
      reads this
    {
      ResponseState(headers, status)
    }

    /** HttpServletResponse.setHeader: sets name to value, replacing any earlier value. */
    method SetHeader(name: string, value: string)
      modifies this
      ensures headers == old(headers)[name := value]
      ensures status == old(status)
    {
      headers := headers[name := value];
    }

    /** HttpServletResponse.setStatus */
    method SetStatus(sc: int)
      modifies this
      ensures status == sc
      ensures headers == old(headers)
    {
      status := sc;
    }
  }

  /** The request carries an Origin header that is not blank. */
  predicate HasOrigin(req: Request): (has: bool)
    ensures req.origin.None? ==> !has
    ensures req.origin.Some? && IsBlank(req.origin.value) ==> !has
    ensures has ==> req.origin.Some? && |req.origin.value| > 0
  {
    req.origin.Some? && !IsBlank(req.origin.value)
  }

  /** The request is a CORS preflight: it has an origin and its method is OPTIONS in any case. */
  predicate IsPreflight(req: Request): (pre: bool)
    ensures pre ==> HasOrigin(req)
    ensures pre ==> |req.httpMethod| == 7
    ensures HasOrigin(req) && req.httpMethod in {"OPTIONS", "options", "Options"} ==> pre
  {
    HasOrigin(req) && EqualsIgnoreCase(OPTIONS, req.httpMethod)
  }

  /**
   * The methods that make a request with an origin a preflight: the seven
   * letters of OPTIONS, each in upper or lower case, and nothing else.
   */
  lemma PreflightMethod(m: string)
    ensures EqualsIgnoreCase(OPTIONS, m) <==>
              && |m| == 7
              && forall i :: 0 <= i < 7 ==> m[i] == OPTIONS[i] || m[i] as int == OPTIONS[i] as int + 32
  {
    assert forall i :: 0 <= i < |OPTIONS| ==> 'A' <= OPTIONS[i] <= 'Z';
    EqualsIgnoreCaseUpper(OPTIONS, m);
  }

  /**
   * The header table after the seven setHeader calls made for a request with
   * an origin, in the order doFilter makes them; the origin is reflected as given.
   */
  function WithCorsHeaders(headers: map<string, string>, origin: string): (r: map<string, string>)
    ensures r.Keys == headers.Keys + (CORS_HEADER_NAMES - {MAX_AGE})
    ensures r[ALLOW_ORIGIN] == origin
    ensures r[CONTENT_TYPE] == "application/json"
    ensures forall name :: name in headers && name !in CORS_HEADER_NAMES - {MAX_AGE} ==> r[name] == headers[name]
  {
    headers[ALLOW_ORIGIN := origin]
           [VARY := VARY_VALUE]
           [ALLOW_CREDENTIALS := ALLOW_CREDENTIALS_VALUE]
           [ALLOW_HEADERS := ALLOW_HEADERS_VALUE]
           [ALLOW_METHODS := ALLOW_METHODS_VALUE]
           [EXPOSE_HEADERS := EXPOSE_HEADERS_VALUE]
           [CONTENT_TYPE := CONTENT_TYPE_VALUE]
  }

  /**
   * What doFilter does to a response in the state `before`: which headers it
   * writes, which status it sets, and whether the request goes on down the chain.
   */
  function Filtered(req: Request, before: ResponseState): (after: Outcome)
    // No origin, or a blank one: the response is untouched and the request goes on,
    // whatever the method is.
    ensures !HasOrigin(req) ==> after.response == before && after.forwarded
    // An origin: the seven CORS headers, the origin reflected verbatim.
    ensures HasOrigin(req) ==>
              && ALLOW_ORIGIN in after.response.headers
              && after.response.headers[ALLOW_ORIGIN] == req.origin.value
              && VARY in after.response.headers
              && after.response.headers[VARY] == "Origin"
              && ALLOW_CREDENTIALS in after.response.headers
              && after.response.headers[ALLOW_CREDENTIALS] == "true"
              && ALLOW_HEADERS in after.response.headers
              && after.response.headers[ALLOW_HEADERS] == "Content-Type, Authorization"
              && ALLOW_METHODS in after.response.headers
              && after.response.headers[ALLOW_METHODS] == "GET, POST, PUT, DELETE, OPTIONS"
              && EXPOSE_HEADERS in after.response.headers
              && after.response.headers[EXPOSE_HEADERS] == "Location, X-Request-Id"
              && CONTENT_TYPE in after.response.headers
              && after.response.headers[CONTENT_TYPE] == "application/json"
    // A preflight: Max-Age, status 204, and the chain does not run.
    ensures IsPreflight(req) ==>
              && MAX_AGE in after.response.headers
              && after.response.headers[MAX_AGE] == "3600"
              && after.response.status == 204
              && !after.forwarded
    // Anything else: the chain runs, the status and Max-Age are as they were.
    ensures !IsPreflight(req) ==>
              && after.forwarded
              && after.response.status == before.status
              && (MAX_AGE in after.response.headers <==> MAX_AGE in before.headers)
              && (MAX_AGE in before.headers ==> after.response.headers[MAX_AGE] == before.headers[MAX_AGE])
    // The request goes on exactly when it is not a preflight.
    ensures after.forwarded <==> !IsPreflight(req)
    // Only the eight CORS names are touched; every other header keeps its value.
    ensures forall name :: name !in CORS_HEADER_NAMES ==>
              && (name in after.response.headers <==> name in before.headers)
              && (name in before.headers ==> after.response.headers[name] == before.headers[name])
  {
    if !HasOrigin(req) then
      Outcome(before, true)
    else
      var written := WithCorsHeaders(before.headers, req.origin.value);
      if EqualsIgnoreCase(OPTIONS, req.httpMethod) then
        Outcome(ResponseState(written[MAX_AGE := MAX_AGE_VALUE], SC_NO_CONTENT), false)
      else
        Outcome(ResponseState(written, before.status), true)
  }

  /**
   * doFilter: writes into resp as Filtered describes, and returns whether
   * chain.doFilter is called.
   */
  method DoFilter(req: Request, resp: Response) returns (forwarded: bool)
    modifies resp
    ensures resp.State() == Filtered(req, old(resp.State())).response
    ensures forwarded == Filtered(req, old(resp.State())).forwarded
  {
    var origin := req.origin;
    if origin.Some? && !IsBlank(origin.value) {
      resp.SetHeader(ALLOW_ORIGIN, origin.value);
      resp.SetHeader(VARY, VARY_VALUE);
      resp.SetHeader(ALLOW_CREDENTIALS, ALLOW_CREDENTIALS_VALUE);
      resp.SetHeader(ALLOW_HEADERS, ALLOW_HEADERS_VALUE);
      resp.SetHeader(ALLOW_METHODS, ALLOW_METHODS_VALUE);
      resp.SetHeader(EXPOSE_HEADERS, EXPOSE_HEADERS_VALUE);
      resp.SetHeader(CONTENT_TYPE, CONTENT_TYPE_VALUE);
      if EqualsIgnoreCase(OPTIONS, req.httpMethod) {
        resp.SetHeader(MAX_AGE, MAX_AGE_VALUE);
        resp.SetStatus(SC_NO_CONTENT);
        forwarded := false;
        return;
      }
    }
    forwarded := true;
  }

  // ---------------------------------------------------------------------------
  // The behaviour the filter is documented with, on concrete requests
  // ---------------------------------------------------------------------------

  /** A preflight from http://example.com, its method in lower case, is answered here. */
  lemma PreflightExample()
    ensures var after := Filtered(Request(Some("http://example.com"), "options"), ResponseState(map[], 200));
            && after.response.status == 204
            && !after.forwarded
            && ALLOW_ORIGIN in after.response.headers
            && after.response.headers[ALLOW_ORIGIN] == "http://example.com"
            && MAX_AGE in after.response.headers
            && after.response.headers[MAX_AGE] == "3600"
  {
    var req := Request(Some("http://example.com"), "options");
    assert !IsWhitespace(req.origin.value[0]);
    assert EqualsIgnoreCase(OPTIONS, req.httpMethod) by {
      forall i | 0 <= i < 7 ensures ToUpperAscii(OPTIONS[i]) == ToUpperAscii(req.httpMethod[i]) {
      }
    }
  }

  /** A GET from http://x.com gets the CORS headers and still reaches the handler. */
  lemma SimpleRequestExample()
    ensures var after := Filtered(Request(Some("http://x.com"), "GET"), ResponseState(map[], 200));
            && after.response.status == 200
            && after.forwarded
            && ALLOW_ORIGIN in after.response.headers
            && after.response.headers[ALLOW_ORIGIN] == "http://x.com"
            && MAX_AGE !in after.response.headers
  {
    var req := Request(Some("http://x.com"), "GET");
    assert !IsWhitespace(req.origin.value[0]);
  }

  /** An OPTIONS request with no Origin header is passed on untouched. */
  lemma OptionsWithoutOriginExample(before: ResponseState)
    ensures Filtered(Request(None, "OPTIONS"), before) == Outcome(before, true)
  {
  }
}
