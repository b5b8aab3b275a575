/**
 * CallRequest (src/request/request.go:20-68): builds one request, attaches the
 * cookies whose domain occurs in the URL, adds headers and query parameters, and
 * sends it up to RETRY_COUNTER times until an attempt is accepted.
 *
 * The network is abstract: an `Environment` says whether http.NewRequest fails,
 * what the URL's own query parses to, and what each attempt of client.Do yields.
 */
module Dispatcher {
  import opened Wrappers
  import opened GoStrings

  newtype byte = x: int | 0 <= x < 256

  /** An error value as Go's `error`; only its presence matters to the code. */
  datatype Error = Error(description: string)

  /** http.Cookie, reduced to what the request code reads or sends. */
  datatype Cookie = Cookie(name: string, value: string, domain: string)

  /** http.Response: the status, the final URL after redirects (res.Request.URL) and the body. */
  datatype Response = Response(status: int, finalURL: string, body: seq<byte>)

  /** What one call of client.Do yields: a transport error, or a response. */
  datatype Outcome = TransportError(error: Error) | Received(response: Response)

  /** The constants of the utils package that CallRequest reads: RETRY_COUNTER and USER_AGENT. */
  datatype Settings = Settings(retryCounter: nat, userAgent: string)

  /** The abstract world one CallRequest runs against. */
  datatype Environment = Environment(
    newRequestError: Option<Error>,              // error of http.NewRequest (bad method or URL)
    urlQuery: Values,                            // req.URL.Query() of the given URL
    attempts: seq<Outcome>)                      // what successive client.Do calls yield

  /** http.Header and url.Values: each key holds a list of values. */
  type Values = map<string, seq<string>>

  const UserAgentKey: string := "User-Agent"

  /** The values under `key`, or none. */
  function Lookup(m: Values, key: string): seq<string>
  {
    if key in m then m[key] else []
  }

  /** Header.Add and Values.Add: append `value` to the list under `key`. */
  function AddValue(m: Values, key: string, value: string): (r: Values)
    ensures r.Keys == m.Keys + {key}
    ensures r[key] == Lookup(m, key) + [value]
    ensures forall k :: k in m && k != key ==> r[k] == m[k]
  {
    m[key := Lookup(m, key) + [value]]
  }

  // ---------------------------------------------------------------------------
  // Request preparation (request.go:27-49)

  /** The cookies attached to a request for `url`: those whose Domain is a substring of it, in list order. */
  function MatchingCookies(url: string, cookies: seq<Cookie>): (r: seq<Cookie>)
    ensures |r| <= |cookies|
    ensures forall c :: c in r ==> c in cookies && Contains(url, c.domain)
    ensures forall c :: c in cookies && Contains(url, c.domain) ==> c in r
  {
    if cookies == [] then []
    else (if Contains(url, cookies[0].domain) then [cookies[0]] else []) + MatchingCookies(url, cookies[1..])
  }

  /** The filter keeps order: filtering a concatenation concatenates the filtered parts. */
  lemma {:induction false} MatchingCookiesAppend(url: string, a: seq<Cookie>, b: seq<Cookie>)
    ensures MatchingCookies(url, a + b) == MatchingCookies(url, a) + MatchingCookies(url, b)
    decreases |a|
  {
    if a != [] {
      assert (a + b)[0] == a[0];
      assert (a + b)[1..] == a[1..] + b;
      MatchingCookiesAppend(url, a[1..], b);
    } else {
      assert a + b == b;
    }
  }

  /** The header map after the additional headers and then the fixed User-Agent are added to an empty header. */
  function PreparedHeader(additional: map<string, string>, userAgent: string): (h: Values)
    ensures h.Keys == additional.Keys + {UserAgentKey}
    ensures forall k :: k in additional && k != UserAgentKey ==> h[k] == [additional[k]]
    ensures h[UserAgentKey] == (if UserAgentKey in additional then [additional[UserAgentKey], userAgent] else [userAgent])
  {
    AddValue(map k | k in additional :: [additional[k]], UserAgentKey, userAgent)
  }

  /** The query values after each parameter is added to the URL's own values. */
  function MergeParams(query: Values, params: map<string, string>): (r: Values)
    ensures r.Keys == query.Keys + params.Keys
    ensures forall k :: k in params ==> r[k] == Lookup(query, k) + [params[k]]
    ensures forall k :: k in query && k !in params ==> r[k] == query[k]
  {
    map k | k in query.Keys + params.Keys :: Lookup(query, k) + (if k in params then [params[k]] else [])
  }

  /** The query part of the sent URL: left as given, or replaced by the encoding of `values`. */
  datatype Query = Unchanged | Encoded(values: Values)

  /** req.URL.RawQuery is rewritten exactly when parameters are given; existing values are kept, new ones appended. */
  function PreparedQuery(urlQuery: Values, params: map<string, string>): (q: Query)
    ensures q.Unchanged? <==> |params| == 0
    ensures q.Encoded? ==> q.values.Keys == urlQuery.Keys + params.Keys
    ensures q.Encoded? ==> forall k :: k in urlQuery ==> urlQuery[k] <= q.values[k]
    ensures q.Encoded? ==> forall k :: k in params ==> |q.values[k]| > 0 && q.values[k][|q.values[k]| - 1] == params[k]
  {
    if |params| > 0 then Encoded(MergeParams(urlQuery, params)) else Unchanged
  }

  /** http.Request: created by http.NewRequest and mutated in place while it is prepared. */
  class Request {
    const verb: string
    const url: string
    var cookies: seq<Cookie>
    var header: Values
    var query: Query

    /** http.NewRequest(method, url, nil) when it succeeds: no cookies, no headers, the URL's own query. */
    constructor (verb: string, url: string)
      ensures this.verb == verb && this.url == url
      ensures cookies == [] && header == map[] && query == Unchanged
    {
      this.verb := verb;
      this.url := url;
      cookies := [];
      header := map[];
      query := Unchanged;
    }

    /** req.AddCookie. */
    method AddCookie(c: Cookie)
      modifies this
      ensures cookies == old(cookies) + [c]
      ensures header == old(header) && query == old(query)
    {
      cookies := cookies + [c];
    }

    /** req.Header.Add. */
    method AddHeader(key: string, value: string)
      modifies this
      ensures header == AddValue(old(header), key, value)
      ensures cookies == old(cookies) && query == old(query)
    {
      header := AddValue(header, key, value);
    }
  }

  /** The header built from the additional headers under `keys` alone. */
  function HeaderOf(additional: map<string, string>, keys: set<string>): Values
  {
    map k | k in keys && k in additional :: [additional[k]]
  }

  /** Adding one more additional header extends HeaderOf by that key. */
  lemma HeaderOfStep(additional: map<string, string>, keys: set<string>, key: string)
    requires key in additional && key !in keys
    ensures AddValue(HeaderOf(additional, keys), key, additional[key]) == HeaderOf(additional, keys + {key})
  {
    var l := AddValue(HeaderOf(additional, keys), key, additional[key]);
    var r := HeaderOf(additional, keys + {key});
    assert l.Keys == r.Keys;
    forall k | k in l.Keys ensures l[k] == r[k] {
    }
  }

  /** The parameters under `keys` alone. */
  function ParamsOf(params: map<string, string>, keys: set<string>): map<string, string>
  {
    map k | k in keys && k in params :: params[k]
  }

  /** With no parameter taken yet, the merge is the URL's own query. */
  lemma MergeNothing(query: Values, params: map<string, string>)
    ensures MergeParams(query, ParamsOf(params, {})) == query
  {
    assert ParamsOf(params, {}) == map[];
    var r := MergeParams(query, map[]);
    assert r.Keys == query.Keys;
  }

  /** Taking every key gives back all the parameters. */
  lemma ParamsOfAll(params: map<string, string>, keys: set<string>)
    requires keys == params.Keys
    ensures ParamsOf(params, keys) == params
  {
  }

  /** Appending a new parameter with Values.Add is merging it with the others. */
  lemma MergeParamsAdd(query: Values, p: map<string, string>, key: string, value: string)
    requires key !in p
    ensures AddValue(MergeParams(query, p), key, value) == MergeParams(query, p[key := value])
  {
    var m := MergeParams(query, p);
    var l := AddValue(m, key, value);
    var r := MergeParams(query, p[key := value]);
    assert l.Keys == r.Keys;
    forall k | k in l.Keys ensures l[k] == r[k] {
      if k == key {
        assert Lookup(m, key) == Lookup(query, key);
      }
    }
  }

  /** Adding one more parameter with Values.Add extends the merge by that key. */
  lemma MergeParamsStep(query: Values, params: map<string, string>, keys: set<string>, key: string)
    requires key in params && key !in keys
    ensures AddValue(MergeParams(query, ParamsOf(params, keys)), key, params[key])
              == MergeParams(query, ParamsOf(params, keys + {key}))
  {
    var before := ParamsOf(params, keys);
    assert ParamsOf(params, keys + {key}) == before[key := params[key]];
    MergeParamsAdd(query, before, key, params[key]);
  }

  /** One more cookie of the list is kept exactly when its domain occurs in the URL. */
  lemma MatchingCookiesStep(url: string, cookies: seq<Cookie>, i: nat)
    requires i < |cookies|
    ensures MatchingCookies(url, cookies[..i + 1])
              == MatchingCookies(url, cookies[..i]) + (if Contains(url, cookies[i].domain) then [cookies[i]] else [])
  {
    var c := cookies[i];
    MatchingCookiesAppend(url, cookies[..i], [c]);
    assert cookies[..i + 1] == cookies[..i] + [c];
    assert [c][1..] == [];
  }

  /** Lines 27-32: the cookies whose domain occurs in the URL are added, in list order. */
  method AttachCookies(req: Request, cookies: seq<Cookie>)
    requires req.cookies == []
    modifies req
    ensures req.cookies == MatchingCookies(req.url, cookies)
    ensures req.header == old(req.header) && req.query == old(req.query)
  {
    for i := 0 to |cookies|
      invariant req.cookies == MatchingCookies(req.url, cookies[..i])
      invariant req.header == old(req.header) && req.query == old(req.query)
    {
      MatchingCookiesStep(req.url, cookies, i);
      if Contains(req.url, cookies[i].domain) {
        req.AddCookie(cookies[i]);
      }
    }
    assert cookies[..|cookies|] == cookies;
  }

  /** Lines 34-40: every additional header, in the map's unspecified order, then the fixed User-Agent. */
  method AddHeaders(req: Request, additionalHeaders: map<string, string>, userAgent: string)
    requires req.header == map[]
    modifies req
    ensures req.header == PreparedHeader(additionalHeaders, userAgent)
    ensures req.cookies == old(req.cookies) && req.query == old(req.query)
  {
    var remaining := additionalHeaders.Keys;
    ghost var done: set<string> := {};
    assert HeaderOf(additionalHeaders, done) == map[];
    while remaining != {}
      invariant remaining !! done && remaining + done == additionalHeaders.Keys
      invariant req.header == HeaderOf(additionalHeaders, done)
      invariant req.cookies == old(req.cookies) && req.query == old(req.query)
      decreases remaining
    {
      var key :| key in remaining;
      HeaderOfStep(additionalHeaders, done, key);
      req.AddHeader(key, additionalHeaders[key]);
      remaining, done := remaining - {key}, done + {key};
    }
    assert HeaderOf(additionalHeaders, done) == map k | k in additionalHeaders :: [additionalHeaders[k]];
    req.AddHeader(UserAgentKey, userAgent);
  }

  /** Lines 44-47: each parameter, in the map's unspecified order, is added to the URL's own query values. */
  method AddEach(urlQuery: Values, params: map<string, string>) returns (query: Values)
    ensures query == MergeParams(urlQuery, params)
  {
    query := urlQuery;
    var remaining := params.Keys;
    ghost var done: set<string> := {};
    MergeNothing(urlQuery, params);
    while remaining != {}
      invariant remaining !! done && remaining + done == params.Keys
      invariant query == MergeParams(urlQuery, ParamsOf(params, done))
      decreases remaining
    {
      var key :| key in remaining;
      MergeParamsStep(urlQuery, params, done, key);
      query := AddValue(query, key, params[key]);
      remaining, done := remaining - {key}, done + {key};
    }
    ParamsOfAll(params, done);
  }

  /** Lines 42-49: with parameters, RawQuery is replaced by the encoding of the extended values. */
  method AddParams(req: Request, params: map<string, string>, urlQuery: Values)
    requires req.query == Unchanged
    modifies req
    ensures req.query == PreparedQuery(urlQuery, params)
    ensures req.cookies == old(req.cookies) && req.header == old(req.header)
  {
    if |params| > 0 {
      var query := AddEach(urlQuery, params);
      req.query := Encoded(query);
    }
  }

  // ---------------------------------------------------------------------------
  // The retry loop (request.go:54-67)

  /** An attempt ends the loop: no transport error, and either no status check or status exactly 200. */
  predicate Accepted(o: Outcome, checkStatus: bool)
  {
    o.Received? && (!checkStatus || o.response.status == 200)
  }

  /** The index of the first accepted outcome, or |outcomes| when none is. */
  function FirstAccepted(outcomes: seq<Outcome>, checkStatus: bool): (k: nat)
    ensures k <= |outcomes|
    ensures k < |outcomes| ==> Accepted(outcomes[k], checkStatus)
    ensures forall j :: 0 <= j < k ==> !Accepted(outcomes[j], checkStatus)
  {
    if outcomes == [] then 0
    else if Accepted(outcomes[0], checkStatus) then 0
    else 1 + FirstAccepted(outcomes[1..], checkStatus)
  }

  /** What CallRequest returns (a response, an error) and how many attempts it made. */
  datatype DispatchResult = DispatchResult(response: Option<Response>, error: Option<Error>, attempts: nat)

  /**
   * The retry loop as written: the first accepted attempt among the first
   * `retryCounter` is returned; when none is, the result is (nil, nil), because
   * the `err` returned at line 67 is the one from line 22, shadowed at line 55.
   */
  function Dispatch(attempts: seq<Outcome>, retryCounter: nat, checkStatus: bool): (r: DispatchResult)
    requires retryCounter <= |attempts|
    ensures r.attempts <= retryCounter
    ensures r.error == None
    ensures r.response.Some? ==>
              && 1 <= r.attempts
              && Accepted(attempts[r.attempts - 1], checkStatus)
              && r.response.value == attempts[r.attempts - 1].response
              && forall j :: 0 <= j < r.attempts - 1 ==> !Accepted(attempts[j], checkStatus)
    ensures r.response.None? ==>
              r.attempts == retryCounter && forall j :: 0 <= j < retryCounter ==> !Accepted(attempts[j], checkStatus)
  {
    var k := FirstAccepted(attempts[..retryCounter], checkStatus);
    if k < retryCounter then DispatchResult(Some(attempts[k].response), None, k + 1)
    else DispatchResult(None, None, retryCounter)
  }

  /**
   * The retry loop as evidently intended: identical, except that exhausted retries
   * report the transport error of the last attempt (nil when the last attempt
   * failed only on its status).
   */
  function DispatchIntended(attempts: seq<Outcome>, retryCounter: nat, checkStatus: bool): (r: DispatchResult)
    requires retryCounter <= |attempts|
    ensures r.response == Dispatch(attempts, retryCounter, checkStatus).response
    ensures r.attempts == Dispatch(attempts, retryCounter, checkStatus).attempts
    ensures r.response.Some? ==> r == Dispatch(attempts, retryCounter, checkStatus)
    ensures r.response.None? && retryCounter == 0 ==> r.error == None
    ensures r.response.None? && retryCounter > 0 ==>
              r.error == (if attempts[retryCounter - 1].TransportError? then Some(attempts[retryCounter - 1].error) else None)
  {
    var d := Dispatch(attempts, retryCounter, checkStatus);
    if d.response.Some? || retryCounter == 0 then d
    else
      var last := attempts[retryCounter - 1];
      d.(error := if last.TransportError? then Some(last.error) else None)
  }

  /** CallRequest as a whole: a NewRequest error is returned before any attempt. */
  function CallResult(env: Environment, settings: Settings, checkStatus: bool): (r: DispatchResult)
    requires settings.retryCounter <= |env.attempts|
    ensures env.newRequestError.Some? ==> r == DispatchResult(None, env.newRequestError, 0)
    ensures r.error.Some? <==> env.newRequestError.Some?
    ensures r.response.Some? ==> r.error.None?
  {
    if env.newRequestError.Some? then DispatchResult(None, env.newRequestError, 0)
    else Dispatch(env.attempts, settings.retryCounter, checkStatus)
  }

  /** Two FirstAccepted-style facts pin down the index: the first accepted one is unique. */
  lemma FirstAcceptedUnique(outcomes: seq<Outcome>, checkStatus: bool, k: nat)
    requires k <= |outcomes|
    requires k < |outcomes| ==> Accepted(outcomes[k], checkStatus)
    requires forall j :: 0 <= j < k ==> !Accepted(outcomes[j], checkStatus)
    ensures FirstAccepted(outcomes, checkStatus) == k
  {
  }

  /**
   * CallRequest (lines 20-68). The request is prepared once and the same request
   * is sent on every attempt; the random delay between attempts is left out.
   */
  method CallRequest(verb: string, url: string, cookies: seq<Cookie>, additionalHeaders: map<string, string>,
                     params: map<string, string>, checkStatus: bool, settings: Settings, env: Environment)
    returns (resp: Option<Response>, err: Option<Error>)
    requires settings.retryCounter <= |env.attempts|
    ensures resp == CallResult(env, settings, checkStatus).response
    ensures err == CallResult(env, settings, checkStatus).error
  {
    // sends a request to the website
    if env.newRequestError.Some? {
      return None, env.newRequestError;
    }
    err := None;   // the `err` of http.NewRequest, nil from here on
    var req := new Request(verb, url);
    AttachCookies(req, cookies);
    AddHeaders(req, additionalHeaders, settings.userAgent);
    AddParams(req, params, env.urlQuery);

    // send the request
    ghost var tried := env.attempts[..settings.retryCounter];
    var i := 1;
    while i <= settings.retryCounter
      invariant 1 <= i <= settings.retryCounter + 1
      invariant forall j :: 0 <= j < i - 1 ==> !Accepted(env.attempts[j], checkStatus)
      invariant err == None
    {
      // `resp, err := client.Do(req)` declares a new err that lives only in this iteration
      var attempt := env.attempts[i - 1];
      if attempt.Received? {
        if !checkStatus || attempt.response.status == 200 {
          FirstAcceptedUnique(tried, checkStatus, i - 1);
          return Some(attempt.response), None;
        }
      }
      i := i + 1;
    }
    FirstAcceptedUnique(tried, checkStatus, settings.retryCounter);
    return None, err;
  }

  // ---------------------------------------------------------------------------
  // Properties

  /** At most RETRY_COUNTER attempts are made; with status checking, a non-200 response is never returned. */
  lemma AcceptedResponsesOnly(env: Environment, settings: Settings, checkStatus: bool)
    requires settings.retryCounter <= |env.attempts|
    ensures CallResult(env, settings, checkStatus).attempts <= settings.retryCounter
    ensures checkStatus && CallResult(env, settings, checkStatus).response.Some? ==>
              CallResult(env, settings, checkStatus).response.value.status == 200
  {
  }

  /**
   * Exhausted retries lose the transport error: when every attempt fails with a
   * transport error, CallRequest still returns (nil, nil), whereas the intended
   * loop reports the last error.
   */
  lemma ExhaustedRetriesReturnNoError(env: Environment, settings: Settings, checkStatus: bool)
    requires settings.retryCounter <= |env.attempts|
    requires env.newRequestError.None? && settings.retryCounter > 0
    requires forall j :: 0 <= j < settings.retryCounter ==> env.attempts[j].TransportError?
    ensures CallResult(env, settings, checkStatus) == DispatchResult(None, None, settings.retryCounter)
    ensures DispatchIntended(env.attempts, settings.retryCounter, checkStatus).error
              == Some(env.attempts[settings.retryCounter - 1].error)
  {
  }

  /** Example: three timeouts in a row yield neither a response nor an error. */
  lemma ThreeTimeoutsExample()
    ensures
      var timeout := TransportError(Error("timeout"));
      var env := Environment(None, map[], [timeout, timeout, timeout]);
      CallResult(env, Settings(3, "ua"), true) == DispatchResult(None, None, 3)
  {
    var timeout := TransportError(Error("timeout"));
    var env := Environment(None, map[], [timeout, timeout, timeout]);
    ExhaustedRetriesReturnNoError(env, Settings(3, "ua"), true);
  }

  /** A cookie whose domain is "example.com" is also sent to "notexample.com": the match is a plain substring test. */
  lemma LooseDomainMatch()
    ensures
      var c := Cookie("session", "v", "example.com");
      MatchingCookies("https://notexample.com/", [c]) == [c]
  {
    var url := "https://notexample.com/";
    assert OccursAt(url, "example.com", 11);
    ContainsIffOccurs(url, "example.com");
  }
}
