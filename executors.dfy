/** exec/executor.go: running one setup test case or one test case. Each is a chain
    of steps that ends at the first failure: the URL template, the callback id
    (test cases only), the body template, the exchange, the status check, the body
    checks, the capture of variables (setup test cases only), the wait for
    callbacks and the truncation of the database (test cases only).

    The exchange is given as a function from the request sent to its outcome.
    Callbacks are given as the ids of the callbacks that arrive, in order, and the
    deadline as the number of loop iterations that start before it passes. */
module Executors {
  import opened Wrappers
  import opened GoStrings
  import opened Json
  import opened Variables
  import opened Urls
  import opened CallbackInjection
  import opened Requests
  import opened Methods
  import opened Cases

  /** What `sendRequest` reads back: the status code and the body; what `Decode`
      gives (the map, or the decoder's error); and what `Decode` leaves unread in the
      body's buffer, which is what the messages written after it show as the body. */
  datatype Response = Response(statusCode: int, body: string, decoded: Result<Fields, string>, unread: string)

  /** The request as it goes on the wire. */
  datatype Outgoing = Outgoing(contentType: string, url: string, httpMethod: Method, body: Fields)

  /** The exchange: the response to a request, or the error of `sendRequest`. */
  type Sender = Outgoing -> Result<Response, string>

  /** Why a case failed; each reason is the text after "<kind> <name>: ". */
  datatype Reason =
    | UrlParse(parseError: ParseError)          // "failed to parse url"
    | UrlProcess(processError: ProcessError)    // "failed to process parsed url with variable map"
    | Injection(injectError: InjectError)       // "failed to inject callback id into request body"
    | BodyProcess(missing: MissingVariable)     // "failed to process request body with variable map"
    // "wants status code <w> but got status code <s>"; a setup test case adds
    // ", response body: <body>"
    | StatusMismatch(want: int, status: int, responseBody: Option<string>)
    // "wants response body but got no response body"; a test case adds the response
    // as `%+v` prints it: its status code (and the address of its buffer)
    | NoResponseBody(shownStatus: Option<int>)
    // "failed to decode response body"; a setup test case wraps the decoder's error
    // and adds ": response body: <unread>", a test case adds the response as above
    | Undecodable(decodeError: Option<string>, responseBody: Option<string>, shownStatus: Option<int>)
    // "failed to process response body: response body: <unread>", wrapping the error
    | CaptureFailed(captureError: CaptureError, unreadBody: string)
    | UnwantedResponseBody(body: string)        // "does not want a response body but got a response body"
    | WrongCallbackID(expected: string, got: string) // "incorrect callback_id"

  /** A failed step: a case failure (`setup` tells "setup_test_case" from
      "test_case"), or an error of the exchange or of the truncation, returned as
      they are. */
  datatype StepError =
    | CaseFailed(setup: bool, name: string, reason: Reason)
    | SendFailed(msg: string)
    | TruncateFailed(msg: string)

  /** How a step ends. `Hang`: the step waits for a callback that never comes, since
      `ReceiveCallback` does not watch the deadline. */
  datatype Verdict = Pass | Fail(error: StepError) | Hang

  /** A step's outcome: its verdict, the request it sent (`None` when it stopped
      before sending) and the case's request body afterwards, which the source
      rewrites in place. */
  datatype Run = Run(verdict: Verdict, sent: Option<Outgoing>, body: Fields)

  /** The URL template of a case, `baseURL + endpoint`, parsed and processed. */
  function CaseUrl(setup: bool, name: string, baseURL: string, endpoint: string, store: map<string, Captured>)
    : Result<string, StepError>
  {
    match ParseUrl(baseURL + endpoint)
    case Err(e) => Err(CaseFailed(setup, name, UrlParse(e)))
    case Ok(u) =>
      match Substitute(u.url, u.variables, store)
      case Err(e) => Err(CaseFailed(setup, name, UrlProcess(e)))
      case Ok(s) => Ok(s)
  }

  // ------------------------------------------------------------------ setup test cases

  /** `ExecuteSetupTestCase`, with the store it leaves behind. */
  function SetupRun(baseURL: string, store: map<string, Captured>, tc: SetupTestCase, send: Sender)
    : (Run, map<string, Captured>)
  {
    match CaseUrl(true, tc.name, baseURL, tc.endpoint, store)
    case Err(e) => (Run(Fail(e), None, tc.requestBody), store)
    case Ok(url) =>
      var t := Traverse(tc.requestBody, store);
      if t.err.Some? then (Run(Fail(CaseFailed(true, tc.name, BodyProcess(t.err.value))), None, t.body), store)
      else
        var out := Outgoing("application/json", url, tc.httpMethod, t.body);
        match send(out)
        case Err(msg) => (Run(Fail(SendFailed(msg)), Some(out), t.body), store)
        case Ok(resp) =>
          var (v, store') := SetupResponse(tc, resp, store);
          (Run(v, Some(out), t.body), store')
  }

  /** The checks on the response of a setup test case, and the capture. */
  function SetupResponse(tc: SetupTestCase, resp: Response, store: map<string, Captured>)
    : (Verdict, map<string, Captured>)
  {
    if tc.statusCode != resp.statusCode then
      (Fail(CaseFailed(true, tc.name, StatusMismatch(tc.statusCode, resp.statusCode, Some(resp.body)))), store)
    else if tc.responseBody then
      if |resp.body| == 0 then (Fail(CaseFailed(true, tc.name, NoResponseBody(None))), store)
      else if resp.decoded.Err? then
        (Fail(CaseFailed(true, tc.name, Undecodable(Some(resp.decoded.error), Some(resp.unread), None))), store)
      else if tc.storeResponseVariables.None? then (Pass, store)
      else
        var (store', err) := Capture(store, tc.storeResponseVariables.value, resp.decoded.value);
        if err.Some? then (Fail(CaseFailed(true, tc.name, CaptureFailed(err.value, resp.unread))), store')
        else (Pass, store')
    else if |resp.body| > 0 then (Fail(CaseFailed(true, tc.name, UnwantedResponseBody(resp.body))), store)
    else (Pass, store)
  }

  // ------------------------------------------------------------------ test cases

  /** What the wait for callbacks ends with. */
  datatype Wait = AllReceived | WrongID(got: string) | Blocked

  /** The callback loop from iteration `i` (counted from 1) with `next` callbacks
      taken: an iteration that starts after the deadline takes none, one that
      starts before it takes the next callback (blocking when none comes) and
      stops on an id other than `uid`. */
  function CallbackLoop(times: nat, expiresAfter: nat, signals: seq<string>, uid: string, i: nat, next: nat)
    : Wait
    decreases times + 1 - i
  {
    if i > times then AllReceived
    else if i > expiresAfter then CallbackLoop(times, expiresAfter, signals, uid, i + 1, next)
    else if next >= |signals| then Blocked
    else if signals[next] != uid then WrongID(signals[next])
    else CallbackLoop(times, expiresAfter, signals, uid, i + 1, next + 1)
  }

  /** `ExecuteTestCase`. */
  function TestRun(baseURL: string, idLocation: string, store: map<string, Captured>, tc: TestCase,
                   uid: string, send: Sender, signals: seq<string>, expiresAfter: nat,
                   truncate: Option<string>): Run
  {
    match CaseUrl(false, tc.name, baseURL, tc.endpoint, store)
    case Err(e) => Run(Fail(e), None, tc.requestBody)
    case Ok(url) =>
      var injected :=
        if tc.callback.enabled then InjectCallbackID(idLocation, Str(uid), tc.requestBody)
        else Ok(tc.requestBody);
      match injected
      case Err(e) => Run(Fail(CaseFailed(false, tc.name, Injection(e))), None, tc.requestBody)
      case Ok(b) =>
        var t := Traverse(b, store);
        if t.err.Some? then Run(Fail(CaseFailed(false, tc.name, BodyProcess(t.err.value))), None, t.body)
        else
          var out := Outgoing("application/json", url, tc.httpMethod, t.body);
          match send(out)
          case Err(msg) => Run(Fail(SendFailed(msg)), Some(out), t.body)
          case Ok(resp) => Run(TestVerdict(tc, resp, uid, signals, expiresAfter, truncate), Some(out), t.body)
  }

  /** The checks on the response of a test case, the wait for callbacks and the
      truncation. A body that is present but not wanted ends the case with no error
      (the source wraps a nil error), skipping the wait and the truncation. */
  function TestVerdict(tc: TestCase, resp: Response, uid: string, signals: seq<string>,
                       expiresAfter: nat, truncate: Option<string>): Verdict
  {
    if tc.statusCode != resp.statusCode then
      Fail(CaseFailed(false, tc.name, StatusMismatch(tc.statusCode, resp.statusCode, None)))
    else if tc.responseBody && |resp.body| == 0 then
      Fail(CaseFailed(false, tc.name, NoResponseBody(Some(resp.statusCode))))
    else if tc.responseBody && resp.decoded.Err? then
      Fail(CaseFailed(false, tc.name, Undecodable(None, None, Some(resp.statusCode))))
    else if !tc.responseBody && |resp.body| > 0 then Pass
    else
      var wait :=
        if tc.callback.enabled then CallbackLoop(tc.callback.times, expiresAfter, signals, uid, 1, 0)
        else AllReceived;
      match wait
      case WrongID(g) => Fail(CaseFailed(false, tc.name, WrongCallbackID(uid, g)))
      case Blocked => Hang
      case AllReceived =>
        if truncate.None? then Pass else Fail(TruncateFailed(truncate.value))
  }

  /** `Executor`, with the collaborators it calls given to each step instead. */
  class Executor {
    var callbackIDLocation: string
    var baseURL: string
    var maxCallbackWaitSeconds: nat
    var vm: VariableMap

    /** `NewExecutor`. */
    constructor (vm: VariableMap, maxCallbackWaitSeconds: nat, baseURL: string, callbackIDLocation: string)
      ensures this.vm == vm && this.maxCallbackWaitSeconds == maxCallbackWaitSeconds
      ensures this.baseURL == baseURL && this.callbackIDLocation == callbackIDLocation
    {
      this.vm := vm;
      this.maxCallbackWaitSeconds := maxCallbackWaitSeconds;
      this.baseURL := baseURL;
      this.callbackIDLocation := callbackIDLocation;
    }

    /** The URL steps shared by both kinds of case. */
    method ProcessUrl(setup: bool, name: string, endpoint: string) returns (r: Result<string, StepError>)
      ensures r == CaseUrl(setup, name, baseURL, endpoint, vm.variableToValue)
    {
      var u := Parse(baseURL + endpoint);
      if u.Err? {
        return Err(CaseFailed(setup, name, UrlParse(u.error)));
      }
      var result := u.value.ProcessWithVariableMap(vm);
      if result.Err? {
        return Err(CaseFailed(setup, name, UrlProcess(result.error)));
      }
      return Ok(result.value);
    }

    /** `ExecuteSetupTestCase`: the variables captured from the response are stored
        in the executor's map. */
    method ExecuteSetupTestCase(tc: SetupTestCase, send: Sender) returns (r: Run)
      modifies vm
      ensures (r, vm.variableToValue) == SetupRun(baseURL, old(vm.variableToValue), tc, send)
    {
      var url := ProcessUrl(true, tc.name, tc.endpoint);
      if url.Err? {
        return Run(Fail(url.error), None, tc.requestBody);
      }
      var req := new Request("application/json", url.value, tc.httpMethod, tc.requestBody);
      var err := req.ProcessWithVariableMap(vm);
      if err.Some? {
        return Run(Fail(CaseFailed(true, tc.name, BodyProcess(err.value))), None, req.body);
      }
      var out := Outgoing(req.contentType, req.url, req.httpMethod, req.body);
      var resp := send(out);
      if resp.Err? {
        return Run(Fail(SendFailed(resp.error)), Some(out), req.body);
      }
      r := Run(Pass, Some(out), req.body);
      if tc.statusCode != resp.value.statusCode {
        var reason := StatusMismatch(tc.statusCode, resp.value.statusCode, Some(resp.value.body));
        return r.(verdict := Fail(CaseFailed(true, tc.name, reason)));
      }
      if tc.responseBody {
        if |resp.value.body| == 0 {
          return r.(verdict := Fail(CaseFailed(true, tc.name, NoResponseBody(None))));
        }
        if resp.value.decoded.Err? {
          var reason := Undecodable(Some(resp.value.decoded.error), Some(resp.value.unread), None);
          return r.(verdict := Fail(CaseFailed(true, tc.name, reason)));
        }
        if tc.storeResponseVariables.Some? {
          var cerr := vm.ProcessResponse(tc.storeResponseVariables.value, resp.value.decoded.value);
          if cerr.Some? {
            return r.(verdict := Fail(CaseFailed(true, tc.name, CaptureFailed(cerr.value, resp.value.unread))));
          }
        }
      } else {
        if |resp.value.body| > 0 {
          return r.(verdict := Fail(CaseFailed(true, tc.name, UnwantedResponseBody(resp.value.body))));
        }
      }
    }

    /** `ExecuteTestCase`: `uid` is the id the generator gives, `signals` the ids of
        the callbacks as they arrive, `expiresAfter` the number of loop iterations
        that start before the deadline and `truncate` the truncator's error. */
    method ExecuteTestCase(tc: TestCase, uid: string, send: Sender, signals: seq<string>,
                           expiresAfter: nat, truncate: Option<string>) returns (r: Run)
      ensures r == TestRun(baseURL, callbackIDLocation, vm.variableToValue, tc, uid, send,
                           signals, expiresAfter, truncate)
    {
      var url := ProcessUrl(false, tc.name, tc.endpoint);
      if url.Err? {
        return Run(Fail(url.error), None, tc.requestBody);
      }
      var body := tc.requestBody;
      if tc.callback.enabled {
        var injected := InjectCallbackID(callbackIDLocation, Str(uid), body);
        if injected.Err? {
          return Run(Fail(CaseFailed(false, tc.name, Injection(injected.error))), None, body);
        }
        body := injected.value;
      }
      var req := new Request("application/json", url.value, tc.httpMethod, body);
      var err := req.ProcessWithVariableMap(vm);
      if err.Some? {
        return Run(Fail(CaseFailed(false, tc.name, BodyProcess(err.value))), None, req.body);
      }
      var out := Outgoing(req.contentType, req.url, req.httpMethod, req.body);
      var resp := send(out);
      if resp.Err? {
        return Run(Fail(SendFailed(resp.error)), Some(out), req.body);
      }
      var verdict := CheckResponse(tc, resp.value, uid, signals, expiresAfter, truncate);
      return Run(verdict, Some(out), req.body);
    }

    /** The part of `ExecuteTestCase` after the exchange, with the callback loop. */
    method CheckResponse(tc: TestCase, resp: Response, uid: string, signals: seq<string>,
                         expiresAfter: nat, truncate: Option<string>) returns (v: Verdict)
      ensures v == TestVerdict(tc, resp, uid, signals, expiresAfter, truncate)
    {
      if tc.statusCode != resp.statusCode {
        return Fail(CaseFailed(false, tc.name, StatusMismatch(tc.statusCode, resp.statusCode, None)));
      }
      if tc.responseBody {
        if |resp.body| == 0 {
          return Fail(CaseFailed(false, tc.name, NoResponseBody(Some(resp.statusCode))));
        }
        if resp.decoded.Err? {
          return Fail(CaseFailed(false, tc.name, Undecodable(None, None, Some(resp.statusCode))));
        }
      } else {
        if |resp.body| > 0 {
          return Pass;
        }
      }
      if tc.callback.enabled {
        var i := 1;
        var next := 0;
        while i <= tc.callback.times
          invariant 1 <= i <= tc.callback.times + 1
          invariant CallbackLoop(tc.callback.times, expiresAfter, signals, uid, 1, 0)
                 == CallbackLoop(tc.callback.times, expiresAfter, signals, uid, i, next)
          decreases tc.callback.times + 1 - i
        {
          if i <= expiresAfter {
            if next >= |signals| {
              return Hang;
            }
            var sig := signals[next];
            next := next + 1;
            if sig != uid {
              return Fail(CaseFailed(false, tc.name, WrongCallbackID(uid, sig)));
            }
          }
          i := i + 1;
        }
      }
      if truncate.Some? {
        return Fail(TruncateFailed(truncate.value));
      }
      return Pass;
    }
  }

  // ------------------------------------------------------------------ the callback wait

  /** The first index below `limit` whose id is not `uid`, or `limit`. */
  function FirstMismatch(signals: seq<string>, uid: string, limit: nat): (k: nat)
    requires limit <= |signals|
    ensures k <= limit
    ensures forall j :: 0 <= j < k ==> signals[j] == uid
    ensures k < limit ==> signals[k] != uid
  {
    if limit == 0 then 0
    else
      var k := FirstMismatch(signals, uid, limit - 1);
      if k < limit - 1 then k
      else if signals[limit - 1] != uid then limit - 1
      else limit
  }

  function Min(a: nat, b: nat): nat
  {
    if a <= b then a else b
  }

  /** The wait for callbacks, stated without the loop: the iterations that start
      before the deadline, `Min(times, expiresAfter)` of them, each take one
      callback; the first of those whose id is not `uid` fails the wait, and if
      fewer callbacks than that ever arrive the wait never ends. */
  function WaitOutcome(times: nat, expiresAfter: nat, signals: seq<string>, uid: string): Wait
  {
    var n := Min(times, expiresAfter);
    var limit := Min(n, |signals|);
    var k := FirstMismatch(signals, uid, limit);
    if k < limit then WrongID(signals[k])
    else if |signals| < n then Blocked
    else AllReceived
  }

  lemma {:induction false} CallbackLoopFrom(times: nat, expiresAfter: nat, signals: seq<string>, uid: string,
                                            i: nat, next: nat)
    requires 1 <= i <= times + 1
    requires next == Min(i - 1, expiresAfter)
    requires next <= |signals| && forall j :: 0 <= j < next ==> signals[j] == uid
    ensures CallbackLoop(times, expiresAfter, signals, uid, i, next) == WaitOutcome(times, expiresAfter, signals, uid)
    decreases times + 1 - i
  {
    if i <= times {
      if i > expiresAfter {
        CallbackLoopFrom(times, expiresAfter, signals, uid, i + 1, next);
      } else if next < |signals| && signals[next] == uid {
        CallbackLoopFrom(times, expiresAfter, signals, uid, i + 1, next + 1);
      }
    }
  }

  /** The callback loop ends as `WaitOutcome` says. */
  lemma CallbackLoopOutcome(times: nat, expiresAfter: nat, signals: seq<string>, uid: string)
    ensures CallbackLoop(times, expiresAfter, signals, uid, 1, 0) == WaitOutcome(times, expiresAfter, signals, uid)
  {
    CallbackLoopFrom(times, expiresAfter, signals, uid, 1, 0);
  }

  // ------------------------------------------------------------------ what a step promises

  /** The checks on a response that precede the wait: the status matches, and a body
      is present and decodes exactly when one is wanted. */
  predicate ResponseChecksPass(wantStatus: int, wantBody: bool, resp: Response)
  {
    && wantStatus == resp.statusCode
    && (wantBody ==> |resp.body| > 0 && resp.decoded.Ok?)
    && (!wantBody ==> |resp.body| == 0)
  }

  /** The outcome of the wait of a test case (none when callbacks are disabled). */
  function TestWait(tc: TestCase, uid: string, signals: seq<string>, expiresAfter: nat): Wait
  {
    if tc.callback.enabled then WaitOutcome(tc.callback.times, expiresAfter, signals, uid) else AllReceived
  }

  /** How the part of a test case after the exchange ends: it passes when the
      checks, the wait and the truncation all succeed, or when a body comes back
      that was not wanted (the error is lost); it hangs only on a wait that never
      ends; a wrong callback id fails it; the truncation runs last, and its error
      is the case's result. */
  lemma TestVerdictCases(tc: TestCase, resp: Response, uid: string, signals: seq<string>,
                         expiresAfter: nat, truncate: Option<string>)
    ensures var v, ok, w := TestVerdict(tc, resp, uid, signals, expiresAfter, truncate),
                           ResponseChecksPass(tc.statusCode, tc.responseBody, resp),
                           TestWait(tc, uid, signals, expiresAfter);
      && (v == Pass <==>
            (tc.statusCode == resp.statusCode && !tc.responseBody && |resp.body| > 0)
            || (ok && w == AllReceived && truncate.None?))
      && (v == Hang <==> ok && w == Blocked)
      && (forall g :: v == Fail(CaseFailed(false, tc.name, WrongCallbackID(uid, g))) <==> ok && w == WrongID(g))
      && (v.Fail? && v.error.TruncateFailed? <==> ok && w == AllReceived && truncate.Some?)
      && (v.Fail? && v.error.TruncateFailed? ==> v.error.msg == truncate.value)
      && (tc.statusCode != resp.statusCode ==>
            v == Fail(CaseFailed(false, tc.name, StatusMismatch(tc.statusCode, resp.statusCode, None))))
      && (tc.statusCode == resp.statusCode && tc.responseBody && |resp.body| == 0 ==>
            v == Fail(CaseFailed(false, tc.name, NoResponseBody(Some(resp.statusCode)))))
      && (tc.statusCode == resp.statusCode && tc.responseBody && |resp.body| > 0 && resp.decoded.Err? ==>
            v == Fail(CaseFailed(false, tc.name, Undecodable(None, None, Some(resp.statusCode)))))
  {
    if tc.callback.enabled {
      CallbackLoopOutcome(tc.callback.times, expiresAfter, signals, uid);
    }
  }

  /** A test case that fails on its URL template sends nothing and leaves its body
      as it was; one that fails to inject the callback id sends nothing either. */
  lemma TestStopsBeforeSending(baseURL: string, idLocation: string, store: map<string, Captured>, tc: TestCase,
                               uid: string, send: Sender, signals: seq<string>, expiresAfter: nat,
                               truncate: Option<string>)
    ensures var r, u := TestRun(baseURL, idLocation, store, tc, uid, send, signals, expiresAfter, truncate),
                        CaseUrl(false, tc.name, baseURL, tc.endpoint, store);
      && (u.Err? ==> r == Run(Fail(u.error), None, tc.requestBody))
      && (u.Ok? && tc.callback.enabled && InjectCallbackID(idLocation, Str(uid), tc.requestBody).Err? ==>
            var e := InjectCallbackID(idLocation, Str(uid), tc.requestBody).error;
            r == Run(Fail(CaseFailed(false, tc.name, Injection(e))), None, tc.requestBody))
      && (u.Ok? && (tc.callback.enabled ==> InjectCallbackID(idLocation, Str(uid), tc.requestBody).Ok?) ==>
            var b := if tc.callback.enabled then InjectCallbackID(idLocation, Str(uid), tc.requestBody).value
                     else tc.requestBody;
            var t := Traverse(b, store);
            && r.body == t.body
            && (r.sent.Some? <==> t.err.None?)
            && (t.err.Some? ==> r.verdict == Fail(CaseFailed(false, tc.name, BodyProcess(t.err.value))))
            && (r.sent.Some? ==> r.sent.value == Outgoing("application/json", u.value, tc.httpMethod, t.body)))
  {
  }

  /** A setup test case fails on its URL template or on its body template before
      sending anything and without touching the store; otherwise it sends the
      processed URL with the processed body, and what follows depends only on the
      response. A failed exchange leaves the store as it was. */
  lemma SetupRunSteps(baseURL: string, store: map<string, Captured>, tc: SetupTestCase, send: Sender)
    ensures var (r, store') := SetupRun(baseURL, store, tc, send);
      var u := CaseUrl(true, tc.name, baseURL, tc.endpoint, store);
      var t := Traverse(tc.requestBody, store);
      && (u.Err? ==> r == Run(Fail(u.error), None, tc.requestBody) && store' == store)
      && (u.Ok? ==> r.body == t.body)
      && (u.Ok? && t.err.Some? ==>
            r.verdict == Fail(CaseFailed(true, tc.name, BodyProcess(t.err.value))) && store' == store)
      && (r.sent.Some? <==> u.Ok? && t.err.None?)
      && (r.sent.Some? ==> r.sent.value == Outgoing("application/json", u.value, tc.httpMethod, t.body))
      && (r.sent.Some? && send(r.sent.value).Err? ==>
            r.verdict == Fail(SendFailed(send(r.sent.value).error)) && store' == store)
      && (r.sent.Some? && send(r.sent.value).Ok? ==>
            (r.verdict, store') == SetupResponse(tc, send(r.sent.value).value, store))
  {
  }

  /** The response of a setup test case: the variables are stored only when the
      checks pass and variables are asked for, and then exactly what
      `ProcessResponse` captures; the case passes exactly when the checks pass and
      the capture (if any) succeeds. It never hangs. Each failure carries what its
      message reports: the whole body on a status mismatch, the decoder's error and
      the unread rest of the body when decoding fails, the capture error and the
      unread rest when the capture fails. */
  lemma SetupResponseCases(tc: SetupTestCase, resp: Response, store: map<string, Captured>)
    ensures var (v, store') := SetupResponse(tc, resp, store);
      var ok := ResponseChecksPass(tc.statusCode, tc.responseBody, resp);
      var captures := ok && tc.responseBody && tc.storeResponseVariables.Some?;
      && v != Hang
      && (!captures ==> store' == store)
      && (captures ==>
            var c := Capture(store, tc.storeResponseVariables.value, resp.decoded.value);
            store' == c.0 && (v == Pass <==> c.1.None?)
            && (c.1.Some? ==> v == Fail(CaseFailed(true, tc.name, CaptureFailed(c.1.value, resp.unread)))))
      && (v == Pass <==> ok && (captures ==> Capture(store, tc.storeResponseVariables.value, resp.decoded.value).1.None?))
      && (tc.statusCode != resp.statusCode ==>
            v == Fail(CaseFailed(true, tc.name, StatusMismatch(tc.statusCode, resp.statusCode, Some(resp.body)))))
      && (tc.statusCode == resp.statusCode && tc.responseBody && |resp.body| == 0 ==>
            v == Fail(CaseFailed(true, tc.name, NoResponseBody(None))))
      && (tc.statusCode == resp.statusCode && tc.responseBody && |resp.body| > 0 && resp.decoded.Err? ==>
            v == Fail(CaseFailed(true, tc.name, Undecodable(Some(resp.decoded.error), Some(resp.unread), None))))
      && (tc.statusCode == resp.statusCode && !tc.responseBody && |resp.body| > 0 ==>
            v == Fail(CaseFailed(true, tc.name, UnwantedResponseBody(resp.body))))
  {
  }
}
