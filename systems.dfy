/** system/system.go and system/run.go: validation of a test suite, and the
    runner that prepares the collaborators and executes the test cases in order. */
module Systems {
  import opened Wrappers
  import opened GoStrings
  import opened Methods
  import opened Cases
  import opened SignatureVerifiers

  /** `SignatureConfiguration`. */
  datatype SignatureConfig = SignatureConfig(replayAttacks: bool, secret: string, header: string, hash: string)

  /** `CallbackConfiguration` (the port and route only concern the callback server). */
  datatype CallbackConfig = CallbackConfig(
    maxWaitSeconds: nat,
    ssl: bool,
    sslKeyFile: string,
    sslCertFile: string,
    idLocation: string,
    signature: SignatureConfig)

  /** The wait used when none is configured. */
  const MaxCallbackWait: nat := 5

  /** The errors of `Clean`, in the order it checks for them. */
  datatype CleanError =
    | BaseURLEmpty                                  // "base url cannot be empty"
    | SSLFilesMissing                               // "both cert_file and key_file are required for ssl"
    | BaseURLInvalid(parseError: string)            // "base url is not a vaild url: %v"
    | NameEmpty                                     // "test case name cannot be empty"
    | EndpointEmpty(emptyIn: string)                // "test_case %s: endpoint cannot be empty"
    | StatusCodeRange(rangeIn: string)              // "test_case %s: valid range for status_code is 100-511"
    | EndpointSlash(slashIn: string)                // "test_case %s: endpoint must begin with /"
    | InvalidMethod(methodIn: string, name: Method) // "test_case %s: invalid method: %s"
    | TimesZero(timesIn: string)                    // "test_case %s: if callback is enabled then times must be greater than 0"

  /** The loop of `Clean` over the test cases from `i` on, with the flag as it
      stands: the first failing check of the first failing case, and the flag
      after the loop. */
  function CheckCases(cases: seq<TestCase>, i: nat, needs: bool): (Option<CleanError>, bool)
    requires i <= |cases|
    decreases |cases| - i
  {
    if i == |cases| then (None, needs)
    else
      var tc := cases[i];
      if tc.name == "" then (Some(NameEmpty), needs)
      else if |tc.endpoint| == 0 then (Some(EndpointEmpty(tc.name)), needs)
      else if tc.statusCode < 100 || tc.statusCode > 511 then (Some(StatusCodeRange(tc.name)), needs)
      else if !HasPrefix(tc.endpoint, "/") then (Some(EndpointSlash(tc.name)), needs)
      else if !IsValid(tc.httpMethod) then (Some(InvalidMethod(tc.name, MethodString(tc.httpMethod))), needs)
      else if tc.callback.enabled && tc.callback.times == 0 then (Some(TimesZero(tc.name)), true)
      else CheckCases(cases, i + 1, needs || tc.callback.enabled)
  }

  /** `Clean` on values: the base url, the SSL files and the url's syntax (as judged
      by `parseURL`, which returns the parse error) are checked before the default
      wait is filled in; then the test cases. Returns the error, the callback
      configuration and the callback flag after the call. */
  function CleanSpec(baseURL: string, cb: CallbackConfig, cases: seq<TestCase>, needs: bool,
                     parseURL: string -> Option<string>): (Option<CleanError>, CallbackConfig, bool)
  {
    if baseURL == "" then (Some(BaseURLEmpty), cb, needs)
    else if cb.ssl && (cb.sslCertFile == "" || cb.sslKeyFile == "") then (Some(SSLFilesMissing), cb, needs)
    else if parseURL(baseURL).Some? then (Some(BaseURLInvalid(parseURL(baseURL).value)), cb, needs)
    else
      var cb' := if cb.maxWaitSeconds == 0 then cb.(maxWaitSeconds := MaxCallbackWait) else cb;
      var (err, needs') := CheckCases(cases, 0, needs);
      (err, cb', needs')
  }

  /** The first failing check of one test case on its own, `None` when it passes. */
  function CaseProblem(tc: TestCase): Option<CleanError>
  {
    if tc.name == "" then Some(NameEmpty)
    else if tc.endpoint == "" then Some(EndpointEmpty(tc.name))
    else if !(100 <= tc.statusCode <= 511) then Some(StatusCodeRange(tc.name))
    else if tc.endpoint[0] != '/' then Some(EndpointSlash(tc.name))
    else if tc.httpMethod !in KnownMethods then Some(InvalidMethod(tc.name, tc.httpMethod))
    else if tc.callback.enabled && tc.callback.times == 0 then Some(TimesZero(tc.name))
    else None
  }

  /** The index of the first case from `i` on with a problem, `|cases|` when none. */
  function FirstProblem(cases: seq<TestCase>, i: nat): (k: nat)
    requires i <= |cases|
    ensures i <= k <= |cases|
    ensures forall j :: i <= j < k ==> CaseProblem(cases[j]) == None
    ensures k < |cases| ==> CaseProblem(cases[k]).Some?
    decreases |cases| - i
  {
    if i == |cases| then i
    else if CaseProblem(cases[i]).Some? then i
    else FirstProblem(cases, i + 1)
  }

  /** The loop's error is the problem of the first case that has one; the flag ends
      set when it was set, or when a case before that one waits for callbacks, or
      when that case fails only for asking for zero callbacks. */
  lemma {:induction false} CheckCasesFirst(cases: seq<TestCase>, i: nat, needs: bool)
    requires i <= |cases|
    ensures var (err, needs') := CheckCases(cases, i, needs);
            var k := FirstProblem(cases, i);
      && err == (if k < |cases| then CaseProblem(cases[k]) else None)
      && (needs' <==>
            || needs
            || (exists j :: i <= j < k && cases[j].callback.enabled)
            || (k < |cases| && CaseProblem(cases[k]).value.TimesZero?))
    decreases |cases| - i
  {
    if i < |cases| {
      var tc := cases[i];
      MethodStringIs(tc.httpMethod);
      if tc.endpoint != "" {
        assert HasPrefix(tc.endpoint, "/") <==> tc.endpoint[0] == '/';
      }
      if CaseProblem(tc).None? {
        CheckCasesFirst(cases, i + 1, needs || tc.callback.enabled);
        var k := FirstProblem(cases, i);
        if tc.callback.enabled {
          assert i <= i < k && cases[i].callback.enabled;
        }
        if exists j :: i + 1 <= j < k && cases[j].callback.enabled {
          var j :| i + 1 <= j < k && cases[j].callback.enabled;
          assert i <= j < k;
        }
      }
    }
  }

  lemma MethodStringIs(m: Method)
    ensures MethodString(m) == m
  {
  }

  /** The flag is never cleared: once a callback server is needed it stays needed,
      whatever a later case does. */
  lemma {:induction false} CheckCasesKeepsFlag(cases: seq<TestCase>, i: nat)
    requires i <= |cases|
    ensures CheckCases(cases, i, true).1
    decreases |cases| - i
  {
    if i < |cases| {
      CheckCasesKeepsFlag(cases, i + 1);
    }
  }

  /** The order of `Clean`'s checks and what it changes: the three suite-level
      errors leave everything alone; past them the wait is defaulted (to 5 when 0,
      kept otherwise, nothing else in the callback configuration touched) even when
      a test case then fails. */
  lemma CleanOrder(baseURL: string, cb: CallbackConfig, cases: seq<TestCase>, needs: bool,
                   parseURL: string -> Option<string>)
    ensures var (err, cb', needs') := CleanSpec(baseURL, cb, cases, needs, parseURL);
      && (baseURL == "" ==> err == Some(BaseURLEmpty))
      && (baseURL != "" && cb.ssl && (cb.sslCertFile == "" || cb.sslKeyFile == "") ==> err == Some(SSLFilesMissing))
      && (baseURL != "" && !(cb.ssl && (cb.sslCertFile == "" || cb.sslKeyFile == "")) && parseURL(baseURL).Some? ==>
            err == Some(BaseURLInvalid(parseURL(baseURL).value)))
      && (baseURL == "" || (cb.ssl && (cb.sslCertFile == "" || cb.sslKeyFile == "")) || parseURL(baseURL).Some? ==>
            cb' == cb && needs' == needs)
      && (baseURL != "" && !(cb.ssl && (cb.sslCertFile == "" || cb.sslKeyFile == "")) && parseURL(baseURL).None? ==>
            cb' == cb.(maxWaitSeconds := if cb.maxWaitSeconds == 0 then MaxCallbackWait else cb.maxWaitSeconds))
  {
  }

  /** The whole of `Clean`: it succeeds exactly when the base url is set, the SSL
      files are given when SSL is on, the url parses and no test case has a
      problem; it reports the first case's problem otherwise. */
  lemma CleanAccepts(baseURL: string, cb: CallbackConfig, cases: seq<TestCase>, needs: bool,
                     parseURL: string -> Option<string>)
    ensures var (err, _, _) := CleanSpec(baseURL, cb, cases, needs, parseURL);
      && (err.None? <==>
            && baseURL != ""
            && (cb.ssl ==> cb.sslCertFile != "" && cb.sslKeyFile != "")
            && parseURL(baseURL).None?
            && forall j :: 0 <= j < |cases| ==> CaseProblem(cases[j]).None?)
      && (baseURL != "" && (cb.ssl ==> cb.sslCertFile != "" && cb.sslKeyFile != "") && parseURL(baseURL).None? ==>
            err == (if FirstProblem(cases, 0) < |cases| then CaseProblem(cases[FirstProblem(cases, 0)]) else None))
  {
    CheckCasesFirst(cases, 0, needs);
  }

  /** A step of `System.Run` that calls a collaborator, in the order taken. */
  datatype Action =
    | NewCallbackServer
    | StartCallbackServer
    | NewTruncator
    | Truncate
    | Setup(setupName: string, setupIn: string)
    | Execute(testCase: string)
    | StopCallbackServer

  /** The error of each collaborator call, by its position in the trace and the
      call: `None` when it succeeds. */
  type Outcome = (nat, Action) -> Option<string>

  datatype RunError =
    | ActionFailed(action: Action, message: string)
    | VerifierFailed(hashError: HashError)            // "failed to get new signature verifier: %v"
    | UnknownSetup(unknown: string, unknownIn: string) // "unknown setup %s, in test case %s"

  const KnownSetups: seq<string> := ["setup_group", "setup_app", "setup_endpoint", "setup_event"]

  /** Calls the collaborator for `a` next: the trace grows by `a` and the call's
      error, if any, aborts the run. */
  function Perform(a: Action, trace: seq<Action>, outcome: Outcome): (r: (Option<RunError>, seq<Action>))
    ensures r.1 == trace + [a]
    ensures r.0.Some? <==> outcome(|trace|, a).Some?
    ensures r.0.Some? ==> r.0.value == ActionFailed(a, outcome(|trace|, a).value)
  {
    match outcome(|trace|, a)
    case Some(msg) => (Some(ActionFailed(a, msg)), trace + [a])
    case None => (None, trace + [a])
  }

  /** The test-case loop of `Run` from setup `j` of case `i` on, after `trace`. */
  function RunCases(cases: seq<TestCase>, i: nat, j: nat, trace: seq<Action>, outcome: Outcome)
    : (Option<RunError>, seq<Action>)
    requires i <= |cases| && (i < |cases| ==> j <= |cases[i].setup|)
    decreases |cases| - i, if i < |cases| then |cases[i].setup| - j else 0
  {
    if i == |cases| then (None, trace)
    else if j < |cases[i].setup| then
      var name := cases[i].setup[j];
      if name !in KnownSetups then (Some(UnknownSetup(name, cases[i].name)), trace)
      else
        var (err, trace') := Perform(Setup(name, cases[i].name), trace, outcome);
        if err.Some? then (err, trace') else RunCases(cases, i, j + 1, trace', outcome)
    else
      var (err, trace') := Perform(Execute(cases[i].name), trace, outcome);
      if err.Some? then (err, trace') else RunCases(cases, i + 1, 0, trace', outcome)
  }

  /** What `Run` does once the callback server (if any) is up: the truncator is
      built and run, the signature verifier built, and the test cases run. */
  function RunAfterServer(sig: SignatureConfig, cases: seq<TestCase>, trace: seq<Action>, outcome: Outcome)
    : (Option<RunError>, seq<Action>)
  {
    var (err1, t1) := Perform(NewTruncator, trace, outcome);
    if err1.Some? then (err1, t1)
    else
      var (err2, t2) := Perform(Truncate, t1, outcome);
      if err2.Some? then (err2, t2)
      else
        match NewSignatureVerifier(sig.replayAttacks, sig.secret, sig.header, sig.hash)
        case Err(e) => (Some(VerifierFailed(e)), t2)
        case Ok(_) => RunCases(cases, 0, 0, t2, outcome)
  }

  /** `Run` on values: the error and the calls made, in order. The server's stop is
      deferred, so it comes last whenever the server was started. */
  function RunSpec(needs: bool, sig: SignatureConfig, cases: seq<TestCase>, outcome: Outcome)
    : (Option<RunError>, seq<Action>)
  {
    if needs then
      var (err1, t1) := Perform(NewCallbackServer, [], outcome);
      if err1.Some? then (err1, t1)
      else
        var (err2, t2) := Perform(StartCallbackServer, t1, outcome);
        if err2.Some? then (err2, t2)
        else
          var (err, t) := RunAfterServer(sig, cases, t2, outcome);
          (err, t + [StopCallbackServer])
    else RunAfterServer(sig, cases, [], outcome)
  }

  /** The calls of one test case when all of them go through: its setups in the
      listed order, then the case itself. */
  function SetupActions(names: seq<string>, testCase: string): (r: seq<Action>)
    ensures |r| == |names|
    ensures forall k :: 0 <= k < |names| ==> r[k] == Setup(names[k], testCase)
  {
    if |names| == 0 then [] else [Setup(names[0], testCase)] + SetupActions(names[1..], testCase)
  }

  /** The calls of all test cases, in order, when all of them go through. */
  function Expected(cases: seq<TestCase>): seq<Action>
  {
    if |cases| == 0 then []
    else SetupActions(cases[0].setup, cases[0].name) + [Execute(cases[0].name)] + Expected(cases[1..])
  }

  /** The calls still expected at setup `j` of case `i`. */
  function Remaining(cases: seq<TestCase>, i: nat, j: nat): seq<Action>
    requires i <= |cases| && (i < |cases| ==> j <= |cases[i].setup|)
  {
    if i == |cases| then []
    else SetupActions(cases[i].setup[j..], cases[i].name) + [Execute(cases[i].name)] + Expected(cases[i + 1..])
  }

  /** Every setup of every case is one of the four known names. */
  predicate AllSetupsKnown(cases: seq<TestCase>)
  {
    forall i, j :: 0 <= i < |cases| && 0 <= j < |cases[i].setup| ==> cases[i].setup[j] in KnownSetups
  }

  lemma RemainingStart(cases: seq<TestCase>, i: nat)
    requires i <= |cases|
    ensures Remaining(cases, i, 0) == Expected(cases[i..])
  {
    if i < |cases| {
      assert cases[i].setup[0..] == cases[i].setup;
      assert cases[i..][1..] == cases[i + 1..];
    }
  }

  lemma RemainingSetup(cases: seq<TestCase>, i: nat, j: nat)
    requires i < |cases| && j < |cases[i].setup|
    ensures Remaining(cases, i, j) == [Setup(cases[i].setup[j], cases[i].name)] + Remaining(cases, i, j + 1)
  {
    var tc := cases[i];
    assert tc.setup[j..][1..] == tc.setup[j + 1..];
  }

  lemma RemainingExecute(cases: seq<TestCase>, i: nat)
    requires i < |cases|
    ensures Remaining(cases, i, |cases[i].setup|) == [Execute(cases[i].name)] + Remaining(cases, i + 1, 0)
  {
    RemainingStart(cases, i + 1);
    assert cases[i].setup[|cases[i].setup|..] == [];
  }

  /** `t` is `trace` followed by the first calls of `rest`. */
  predicate CallsPrefix(t: seq<Action>, trace: seq<Action>, rest: seq<Action>)
  {
    |trace| <= |t| <= |trace| + |rest| && t == trace + rest[..|t| - |trace|]
  }

  lemma CallsPrefixStep(r: (Option<RunError>, seq<Action>), trace: seq<Action>, a: Action, rest: seq<Action>)
    requires CallsPrefix(r.1, trace + [a], rest)
    requires r.0.None? ==> r.1 == trace + [a] + rest
    ensures CallsPrefix(r.1, trace, [a] + rest)
    ensures r.0.None? ==> r.1 == trace + ([a] + rest)
  {
    assert ([a] + rest)[..|r.1| - |trace|] == [a] + rest[..|r.1| - |trace| - 1];
  }

  lemma CallsPrefixStop(trace: seq<Action>, a: Action, rest: seq<Action>)
    ensures CallsPrefix(trace, trace, [a] + rest)
    ensures CallsPrefix(trace + [a], trace, [a] + rest)
  {
    assert ([a] + rest)[..1] == [a];
  }

  /** The test-case loop calls a prefix of the expected calls, in order: a failing
      call or an unknown setup ends the run, and the whole sequence is called
      when no error comes back. */
  lemma {:induction false} RunCasesPrefix(cases: seq<TestCase>, i: nat, j: nat, trace: seq<Action>, outcome: Outcome)
    requires i <= |cases| && (i < |cases| ==> j <= |cases[i].setup|)
    ensures var (err, t) := RunCases(cases, i, j, trace, outcome);
      && CallsPrefix(t, trace, Remaining(cases, i, j))
      && (err.None? ==> t == trace + Remaining(cases, i, j))
    decreases |cases| - i, if i < |cases| then |cases[i].setup| - j else 0
  {
    var r := RunCases(cases, i, j, trace, outcome);
    if i < |cases| {
      var a, i', j';
      if j < |cases[i].setup| {
        a, i', j' := Setup(cases[i].setup[j], cases[i].name), i, j + 1;
        RemainingSetup(cases, i, j);
      } else {
        a, i', j' := Execute(cases[i].name), i + 1, 0;
        RemainingExecute(cases, i);
      }
      CallsPrefixStop(trace, a, Remaining(cases, i', j'));
      if (a.Setup? ==> a.setupName in KnownSetups) && outcome(|trace|, a).None? {
        assert r == RunCases(cases, i', j', trace + [a], outcome);
        RunCasesPrefix(cases, i', j', trace + [a], outcome);
        CallsPrefixStep(r, trace, a, Remaining(cases, i', j'));
      }
    }
  }

  /** Every call the loop makes succeeds, except a failing last one, whose error is
      the run's. */
  lemma {:induction false} RunCasesOutcomes(cases: seq<TestCase>, i: nat, j: nat, trace: seq<Action>, outcome: Outcome)
    requires i <= |cases| && (i < |cases| ==> j <= |cases[i].setup|)
    ensures var (err, t) := RunCases(cases, i, j, trace, outcome);
      && |trace| <= |t| && t[..|trace|] == trace
      && (forall k :: |trace| <= k < |t| && (err.None? || k < |t| - 1) ==> outcome(k, t[k]).None?)
      && (err.Some? && err.value.ActionFailed? ==>
            |t| > |trace| && err.value.action == t[|t| - 1]
            && outcome(|t| - 1, t[|t| - 1]) == Some(err.value.message))
    decreases |cases| - i, if i < |cases| then |cases[i].setup| - j else 0
  {
    if i < |cases| {
      var a := if j < |cases[i].setup| then Setup(cases[i].setup[j], cases[i].name) else Execute(cases[i].name);
      if (j < |cases[i].setup| ==> cases[i].setup[j] in KnownSetups) && outcome(|trace|, a).None? {
        if j < |cases[i].setup| {
          RunCasesOutcomes(cases, i, j + 1, trace + [a], outcome);
        } else {
          RunCasesOutcomes(cases, i + 1, 0, trace + [a], outcome);
        }
        var t := RunCases(cases, i, j, trace, outcome).1;
        assert t[..|trace| + 1] == trace + [a];
        assert t[|trace|] == a;
      }
    }
  }

  /** The call of `rest` that comes right after `t` is setup `name` of `testCase`. */
  predicate NextCallIs(t: seq<Action>, trace: seq<Action>, rest: seq<Action>, next: Action)
  {
    |trace| <= |t| < |trace| + |rest| && rest[|t| - |trace|] == next
  }

  lemma NextCallStep(t: seq<Action>, trace: seq<Action>, a: Action, rest: seq<Action>, next: Action)
    requires NextCallIs(t, trace + [a], rest, next)
    ensures NextCallIs(t, trace, [a] + rest, next)
  {
  }

  /** An unknown setup name stops the run just before the call that would have
      run it. */
  lemma {:induction false} RunCasesUnknown(cases: seq<TestCase>, i: nat, j: nat, trace: seq<Action>, outcome: Outcome)
    requires i <= |cases| && (i < |cases| ==> j <= |cases[i].setup|)
    ensures var (err, t) := RunCases(cases, i, j, trace, outcome);
      err.Some? && err.value.UnknownSetup? ==>
        && NextCallIs(t, trace, Remaining(cases, i, j), Setup(err.value.unknown, err.value.unknownIn))
        && err.value.unknown !in KnownSetups
    decreases |cases| - i, if i < |cases| then |cases[i].setup| - j else 0
  {
    var r := RunCases(cases, i, j, trace, outcome);
    if i < |cases| {
      if j < |cases[i].setup| {
        var a := Setup(cases[i].setup[j], cases[i].name);
        RemainingSetup(cases, i, j);
        if cases[i].setup[j] !in KnownSetups {
          assert r == (Some(UnknownSetup(cases[i].setup[j], cases[i].name)), trace);
        } else if outcome(|trace|, a).None? {
          assert r == RunCases(cases, i, j + 1, trace + [a], outcome);
          RunCasesUnknown(cases, i, j + 1, trace + [a], outcome);
          if r.0.Some? && r.0.value.UnknownSetup? {
            NextCallStep(r.1, trace, a, Remaining(cases, i, j + 1), Setup(r.0.value.unknown, r.0.value.unknownIn));
          }
        }
      } else {
        var a := Execute(cases[i].name);
        RemainingExecute(cases, i);
        if outcome(|trace|, a).None? {
          assert r == RunCases(cases, i + 1, 0, trace + [a], outcome);
          RunCasesUnknown(cases, i + 1, 0, trace + [a], outcome);
          if r.0.Some? && r.0.value.UnknownSetup? {
            NextCallStep(r.1, trace, a, Remaining(cases, i + 1, 0), Setup(r.0.value.unknown, r.0.value.unknownIn));
          }
        }
      }
    }
  }

  /** A run that returns no error made every expected call, which means every
      setup name was known and every call succeeded. */
  lemma {:induction false} RunCasesSucceeds(cases: seq<TestCase>, i: nat, j: nat, trace: seq<Action>, outcome: Outcome)
    requires i <= |cases| && (i < |cases| ==> j <= |cases[i].setup|)
    requires RunCases(cases, i, j, trace, outcome).0.None?
    ensures i < |cases| ==> forall j' :: j <= j' < |cases[i].setup| ==> cases[i].setup[j'] in KnownSetups
    ensures forall i', j' :: i < i' < |cases| && 0 <= j' < |cases[i'].setup| ==> cases[i'].setup[j'] in KnownSetups
    decreases |cases| - i, if i < |cases| then |cases[i].setup| - j else 0
  {
    if i < |cases| {
      if j < |cases[i].setup| {
        RunCasesSucceeds(cases, i, j + 1, trace + [Setup(cases[i].setup[j], cases[i].name)], outcome);
      } else if i + 1 < |cases| {
        RunCasesSucceeds(cases, i + 1, 0, trace + [Execute(cases[i].name)], outcome);
      }
    }
  }

  /** The calls that bring the callback server up, made only when one is needed. */
  function ServerStart(needs: bool): seq<Action>
  {
    if needs then [NewCallbackServer, StartCallbackServer] else []
  }

  /** Whether a run gets as far as its test cases: the server (when needed) is
      built and started, the truncator built and run, and the signature
      algorithm known. */
  predicate ReachesCases(needs: bool, sig: SignatureConfig, outcome: Outcome)
  {
    && (needs ==> outcome(0, NewCallbackServer).None? && outcome(1, StartCallbackServer).None?)
    && outcome(|ServerStart(needs)|, NewTruncator).None?
    && outcome(|ServerStart(needs)| + 1, Truncate).None?
    && sig.hash in KnownAlgorithms
  }

  /** A run that does not get as far as its test cases fails, and calls neither a
      setup nor a test case. */
  lemma RunAbortsBeforeCases(needs: bool, sig: SignatureConfig, cases: seq<TestCase>, outcome: Outcome)
    requires !ReachesCases(needs, sig, outcome)
    ensures var (err, t) := RunSpec(needs, sig, cases, outcome);
      && err.Some?
      && |t| <= |ServerStart(needs)| + 3
      && forall k :: 0 <= k < |t| ==> !t[k].Setup? && !t[k].Execute?
  {
  }

  /** What a run that gets as far as its test cases does: the test-case loop
      after the server start and the truncation, then the deferred stop. */
  lemma RunSpecReaching(needs: bool, sig: SignatureConfig, cases: seq<TestCase>, outcome: Outcome)
    requires ReachesCases(needs, sig, outcome)
    ensures var r := RunCases(cases, 0, 0, ServerStart(needs) + [NewTruncator, Truncate], outcome);
      RunSpec(needs, sig, cases, outcome) == (r.0, if needs then r.1 + [StopCallbackServer] else r.1)
  {
    var s := ServerStart(needs);
    assert ([] + [NewCallbackServer]) + [StartCallbackServer] == [NewCallbackServer, StartCallbackServer];
    assert (s + [NewTruncator]) + [Truncate] == s + [NewTruncator, Truncate];
    assert RunAfterServer(sig, cases, s, outcome) == RunCases(cases, 0, 0, s + [NewTruncator, Truncate], outcome);
  }

  /** A run that gets as far as its test cases has first built the server (when
      needed) and the truncator and truncated once, then calls a prefix of the
      expected setups and cases, and finally stops the server when one was
      started. */
  lemma RunReachesCases(needs: bool, sig: SignatureConfig, cases: seq<TestCase>, outcome: Outcome)
    requires ReachesCases(needs, sig, outcome)
    ensures var (err, t) := RunSpec(needs, sig, cases, outcome);
            var before := ServerStart(needs) + [NewTruncator, Truncate];
            var after: seq<Action> := if needs then [StopCallbackServer] else [];
      && |after| <= |t|
      && t[|t| - |after|..] == after
      && CallsPrefix(t[..|t| - |after|], before, Expected(cases))
      && (err.None? ==> t[..|t| - |after|] == before + Expected(cases) && AllSetupsKnown(cases))
  {
    var before := ServerStart(needs) + [NewTruncator, Truncate];
    var after: seq<Action> := if needs then [StopCallbackServer] else [];
    RunSpecReaching(needs, sig, cases, outcome);
    var r := RunCases(cases, 0, 0, before, outcome);
    RunCasesWhole(cases, before, outcome);
    SplitAfter(r.1, after);
  }

  /** `RunCasesPrefix` and `RunCasesSucceeds` for the whole loop. */
  lemma RunCasesWhole(cases: seq<TestCase>, trace: seq<Action>, outcome: Outcome)
    ensures var (err, t) := RunCases(cases, 0, 0, trace, outcome);
      && CallsPrefix(t, trace, Expected(cases))
      && (err.None? ==> t == trace + Expected(cases) && AllSetupsKnown(cases))
  {
    RunCasesPrefix(cases, 0, 0, trace, outcome);
    RemainingStart(cases, 0);
    assert cases[0..] == cases;
    if RunCases(cases, 0, 0, trace, outcome).0.None? {
      RunCasesSucceeds(cases, 0, 0, trace, outcome);
    }
  }

  lemma SplitAfter(m: seq<Action>, after: seq<Action>)
    ensures var t := m + after; |after| <= |t| && t[..|t| - |after|] == m && t[|t| - |after|..] == after
  {
    var t := m + after;
    assert t[..|t| - |after|] == m;
    assert t[|t| - |after|..] == after;
  }

  /** The callback server is created only when a test case needs callbacks, and is
      stopped, as the last call, exactly when it was started. */
  lemma RunServerLifecycle(needs: bool, sig: SignatureConfig, cases: seq<TestCase>, outcome: Outcome)
    ensures var (err, t) := RunSpec(needs, sig, cases, outcome);
      && (needs <==> |t| > 0 && t[0] == NewCallbackServer)
      && (|t| > 0 && t[|t| - 1] == StopCallbackServer <==>
            needs && outcome(0, NewCallbackServer).None? && outcome(1, StartCallbackServer).None?)
  {
    var s := ServerStart(needs);
    if needs && outcome(0, NewCallbackServer).None? && outcome(1, StartCallbackServer).None? {
      RunAfterServerAvoidsServer(sig, cases, s, outcome);
      var r := RunAfterServer(sig, cases, s, outcome);
      assert ([] + [NewCallbackServer]) + [StartCallbackServer] == s;
      assert RunSpec(needs, sig, cases, outcome) == (r.0, r.1 + [StopCallbackServer]);
      assert r.1[0] == s[0];
    } else if !needs {
      RunAfterServerAvoidsServer(sig, cases, s, outcome);
    }
  }

  /** After the server is up, no call touches it until the deferred stop. */
  lemma RunAfterServerAvoidsServer(sig: SignatureConfig, cases: seq<TestCase>, trace: seq<Action>, outcome: Outcome)
    ensures var (_, t) := RunAfterServer(sig, cases, trace, outcome);
      && |t| > |trace| && t[..|trace|] == trace
      && forall k :: |trace| <= k < |t| ==>
           t[k] != NewCallbackServer && t[k] != StartCallbackServer && t[k] != StopCallbackServer
  {
    var t1 := trace + [NewTruncator];
    var t2 := t1 + [Truncate];
    if outcome(|trace|, NewTruncator).None? && outcome(|t1|, Truncate).None? && sig.hash in KnownAlgorithms {
      assert RunAfterServer(sig, cases, trace, outcome) == RunCases(cases, 0, 0, t2, outcome);
      RunCasesPrefix(cases, 0, 0, t2, outcome);
      var (_, t) := RunCases(cases, 0, 0, t2, outcome);
      var rest := Remaining(cases, 0, 0);
      assert t[..|trace|] == trace;
      forall k | |trace| <= k < |t|
        ensures t[k] != NewCallbackServer && t[k] != StartCallbackServer && t[k] != StopCallbackServer
      {
        if k >= |t2| {
          assert t[k] == rest[k - |t2|];
          RemainingActions(cases, 0, 0, k - |t2|);
        }
      }
    }
  }

  /** The expected calls are setups and test cases only. */
  lemma {:induction false} RemainingActions(cases: seq<TestCase>, i: nat, j: nat, k: nat)
    requires i <= |cases| && (i < |cases| ==> j <= |cases[i].setup|)
    requires k < |Remaining(cases, i, j)|
    ensures Remaining(cases, i, j)[k].Setup? || Remaining(cases, i, j)[k].Execute?
    decreases |cases| - i
  {
    if i < |cases| {
      var s := SetupActions(cases[i].setup[j..], cases[i].name);
      var later := Remaining(cases, i + 1, 0);
      var all := Remaining(cases, i, j);
      RemainingUnfold(cases, i, j);
      if k > |s| {
        RemainingActions(cases, i + 1, 0, k - |s| - 1);
        assert all[k] == later[k - |s| - 1];
      } else if k < |s| {
        assert all[k] == s[k];
      }
    }
  }

  /** `Remaining` in the middle of a case: its outstanding setups, its execution,
      then the later cases from their start. */
  lemma RemainingUnfold(cases: seq<TestCase>, i: nat, j: nat)
    requires i < |cases| && j <= |cases[i].setup|
    ensures Remaining(cases, i, j)
         == SetupActions(cases[i].setup[j..], cases[i].name) + [Execute(cases[i].name)] + Remaining(cases, i + 1, 0)
  {
    RemainingStart(cases, i + 1);
  }

  /** `System`. The variable store and the database configuration belong to the
      collaborators and are not modelled here. */
  class System {
    var baseURL: string
    var eventTargetURL: string
    var callback: CallbackConfig
    var testCases: seq<TestCase>
    var needsCallback: bool

    constructor (baseURL: string, eventTargetURL: string, callback: CallbackConfig, testCases: seq<TestCase>)
      ensures this.baseURL == baseURL && this.eventTargetURL == eventTargetURL
      ensures this.callback == callback && this.testCases == testCases
      ensures !needsCallback
    {
      this.baseURL := baseURL;
      this.eventTargetURL := eventTargetURL;
      this.callback := callback;
      this.testCases := testCases;
      needsCallback := false;
    }

    /** `NeedsCallbackServer`. */
    function NeedsCallbackServer(): bool
      reads this
    {
      needsCallback
    }

    /** `Clean`. `parseURL` stands for `url.Parse` and returns its error. */
    method Clean(parseURL: string -> Option<string>) returns (err: Option<CleanError>)
      modifies this
      ensures (err, callback, NeedsCallbackServer()) ==
                CleanSpec(old(baseURL), old(callback), old(testCases), old(needsCallback), parseURL)
      ensures baseURL == old(baseURL) && eventTargetURL == old(eventTargetURL) && testCases == old(testCases)
    {
      if baseURL == "" {
        return Some(BaseURLEmpty);
      }
      if callback.ssl {
        if callback.sslCertFile == "" || callback.sslKeyFile == "" {
          return Some(SSLFilesMissing);
        }
      }
      var parseErr := parseURL(baseURL);
      if parseErr.Some? {
        return Some(BaseURLInvalid(parseErr.value));
      }
      if callback.maxWaitSeconds == 0 {
        callback := callback.(maxWaitSeconds := MaxCallbackWait);
      }
      err := CleanCases();
    }

    /** The loop of `Clean` over the test cases. */
    method CleanCases() returns (err: Option<CleanError>)
      modifies this
      ensures (err, NeedsCallbackServer()) == CheckCases(old(testCases), 0, old(needsCallback))
      ensures baseURL == old(baseURL) && eventTargetURL == old(eventTargetURL) && testCases == old(testCases)
      ensures callback == old(callback)
    {
      var i := 0;
      while i < |testCases|
        invariant 0 <= i <= |testCases|
        invariant CheckCases(testCases, i, needsCallback) == CheckCases(old(testCases), 0, old(needsCallback))
        invariant baseURL == old(baseURL) && eventTargetURL == old(eventTargetURL) && testCases == old(testCases)
        invariant callback == old(callback)
      {
        var tc := testCases[i];
        if tc.name == "" {
          return Some(NameEmpty);
        }
        if |tc.endpoint| == 0 {
          return Some(EndpointEmpty(tc.name));
        }
        if tc.statusCode < 100 || tc.statusCode > 511 {
          return Some(StatusCodeRange(tc.name));
        }
        if !HasPrefix(tc.endpoint, "/") {
          return Some(EndpointSlash(tc.name));
        }
        if !IsValid(tc.httpMethod) {
          return Some(InvalidMethod(tc.name, MethodString(tc.httpMethod)));
        }
        if tc.callback.enabled {
          needsCallback := true;
          if tc.callback.times == 0 {
            return Some(TimesZero(tc.name));
          }
        }
        i := i + 1;
      }
      return None;
    }

    /** Calls the collaborator for `a` and records it. */
    method Call(a: Action, trace: seq<Action>, outcome: Outcome) returns (err: Option<RunError>, trace': seq<Action>)
      ensures (err, trace') == Perform(a, trace, outcome)
    {
      trace' := trace + [a];
      err := None;
      var failure := outcome(|trace|, a);
      if failure.Some? {
        err := Some(ActionFailed(a, failure.value));
      }
    }

    /** `Run`. Every collaborator (server, truncator, setup functions, executor) is
        represented by `outcome`; the method returns the error and the calls made. */
    method Run(outcome: Outcome) returns (err: Option<RunError>, trace: seq<Action>)
      ensures (err, trace) == RunSpec(needsCallback, callback.signature, testCases, outcome)
    {
      trace := [];
      var started := false;
      if needsCallback {
        err, trace := Call(NewCallbackServer, trace, outcome);
        if err.Some? {
          return;
        }
        err, trace := Call(StartCallbackServer, trace, outcome);
        if err.Some? {
          return;
        }
        started := true;
      }
      err, trace := RunAfterStart(trace, outcome);
      if started {
        trace := trace + [StopCallbackServer];
      }
    }

    /** The part of `Run` between starting the server and the deferred stop. */
    method RunAfterStart(trace0: seq<Action>, outcome: Outcome) returns (err: Option<RunError>, trace: seq<Action>)
      ensures (err, trace) == RunAfterServer(callback.signature, testCases, trace0, outcome)
    {
      err, trace := Call(NewTruncator, trace0, outcome);
      if err.Some? {
        return;
      }
      err, trace := Call(Truncate, trace, outcome);
      if err.Some? {
        return;
      }
      var sig := callback.signature;
      var sv := NewSignatureVerifier(sig.replayAttacks, sig.secret, sig.header, sig.hash);
      if sv.Err? {
        return Some(VerifierFailed(sv.error)), trace;
      }
      ghost var t2 := trace;
      var i := 0;
      while i < |testCases|
        invariant 0 <= i <= |testCases|
        invariant RunCases(testCases, i, 0, trace, outcome) == RunCases(testCases, 0, 0, t2, outcome)
      {
        var tc := testCases[i];
        var j := 0;
        while j < |tc.setup|
          invariant 0 <= j <= |tc.setup|
          invariant RunCases(testCases, i, j, trace, outcome) == RunCases(testCases, 0, 0, t2, outcome)
        {
          var name := tc.setup[j];
          if name !in KnownSetups {
            return Some(UnknownSetup(name, tc.name)), trace;
          }
          err, trace := Call(Setup(name, tc.name), trace, outcome);
          if err.Some? {
            return;
          }
          j := j + 1;
        }
        err, trace := Call(Execute(tc.name), trace, outcome);
        if err.Some? {
          return;
        }
        i := i + 1;
      }
      return None, trace;
    }
  }
}
