/** config/config.go: the configuration of a load test, its validation, and the
    merge of an override (read from the environment) into a loaded configuration. */
module Configs {
  import opened Wrappers
  import opened GoStrings

  /** `TestType`. */
  type TestType = string

  const IngestTest: TestType := "ingest"
  const FanOutTest: TestType := "fan_out"
  const SingleTest: TestType := "single"
  const DynamicTest: TestType := "dynamic"
  const PubSubTest: TestType := "pub_sub"

  const KnownTestTypes: seq<TestType> := [IngestTest, FanOutTest, SingleTest, DynamicTest, PubSubTest]

  /** `TestType.IsValid`: the switch over the five constants. */
  function IsValidTestType(t: TestType): (r: bool)
    ensures r <==> t in KnownTestTypes
  {
    match t
    case "ingest" => true
    case "fan_out" => true
    case "single" => true
    case "dynamic" => true
    case "pub_sub" => true
    case _ => false
  }

  datatype ApiKey = ApiKey(headerValue: string, headerName: string)

  /** `EndpointAuthentication`; `apiKey` is `None` when it is nil. */
  datatype EndpointAuthentication = EndpointAuthentication(authType: string, apiKey: Option<ApiKey>)

  /** The value of every field of a `Config`, in declaration order. */
  datatype ConfigData = ConfigData(
    convoyURL: string,
    endpointURL: string,
    endpointSecret: string,
    events: Int64,
    testType: TestType,
    logFile: string,
    recvTimeout: Int64,
    recvPort: string,
    endpointAuthentication: Option<EndpointAuthentication>)

  /** The zero `Config`. */
  const ZeroConfig: ConfigData := ConfigData("", "", "", 0, "", "", 0, "", None)

  /** What `overrideFields` does with one field: a zero value in the new
      configuration keeps the old value, any other value replaces it. */
  function Pick<T(==)>(old_: T, new_: T, zero: T): T
  {
    if new_ == zero then old_ else new_
  }

  /** `Override` on values: field by field, `Pick` with that field's zero value.
      Every field is exported and none is of struct kind (the authentication is held
      by reference), so the walk never recurses and a non-nil authentication replaces
      the old one as a whole. */
  function Merged(o: ConfigData, n: ConfigData): ConfigData
  {
    ConfigData(
      Pick(o.convoyURL, n.convoyURL, ""),
      Pick(o.endpointURL, n.endpointURL, ""),
      Pick(o.endpointSecret, n.endpointSecret, ""),
      Pick(o.events, n.events, 0),
      Pick(o.testType, n.testType, ""),
      Pick(o.logFile, n.logFile, ""),
      Pick(o.recvTimeout, n.recvTimeout, 0),
      Pick(o.recvPort, n.recvPort, ""),
      Pick(o.endpointAuthentication, n.endpointAuthentication, None))
  }

  /** Overriding with the zero configuration changes nothing. */
  lemma MergedZero(o: ConfigData)
    ensures Merged(o, ZeroConfig) == o
  {
  }

  /** Overriding twice with the same configuration is the same as once. */
  lemma MergedIdempotent(o: ConfigData, n: ConfigData)
    ensures Merged(Merged(o, n), n) == Merged(o, n)
  {
  }

  /** Overriding a zero configuration gives the override. */
  lemma MergedOntoZero(n: ConfigData)
    ensures Merged(ZeroConfig, n) == n
  {
  }

  /** The merged configuration takes every non-zero field of the override and keeps
      the old value of every other field. */
  lemma MergedFields(o: ConfigData, n: ConfigData)
    ensures var m := Merged(o, n);
      && m.convoyURL == (if n.convoyURL != "" then n.convoyURL else o.convoyURL)
      && m.endpointURL == (if n.endpointURL != "" then n.endpointURL else o.endpointURL)
      && m.endpointSecret == (if n.endpointSecret != "" then n.endpointSecret else o.endpointSecret)
      && m.events == (if n.events != 0 then n.events else o.events)
      && m.testType == (if n.testType != "" then n.testType else o.testType)
      && m.logFile == (if n.logFile != "" then n.logFile else o.logFile)
      && m.recvTimeout == (if n.recvTimeout != 0 then n.recvTimeout else o.recvTimeout)
      && m.recvPort == (if n.recvPort != "" then n.recvPort else o.recvPort)
      && m.endpointAuthentication == (if n.endpointAuthentication.Some? then n.endpointAuthentication
                                      else o.endpointAuthentication)
  {
  }

  /** "empty log file" */
  datatype ConfigError = EmptyLogFile

  /** The number of events used when none is configured. */
  const NumEvents: Int64 := 5000

  /** `Config`. */
  class Config {
    var convoyURL: string
    var endpointURL: string
    var endpointSecret: string
    var events: Int64
    var testType: TestType
    var logFile: string
    var recvTimeout: Int64
    var recvPort: string
    var endpointAuthentication: Option<EndpointAuthentication>

    constructor (d: ConfigData)
      ensures Data() == d
    {
      convoyURL := d.convoyURL;
      endpointURL := d.endpointURL;
      endpointSecret := d.endpointSecret;
      events := d.events;
      testType := d.testType;
      logFile := d.logFile;
      recvTimeout := d.recvTimeout;
      recvPort := d.recvPort;
      endpointAuthentication := d.endpointAuthentication;
    }

    /** Stores every field of `d`. */
    method SetData(d: ConfigData)
      modifies this
      ensures Data() == d
    {
      convoyURL, endpointURL, endpointSecret := d.convoyURL, d.endpointURL, d.endpointSecret;
      events, testType, logFile := d.events, d.testType, d.logFile;
      recvTimeout, recvPort := d.recvTimeout, d.recvPort;
      endpointAuthentication := d.endpointAuthentication;
    }

    function Data(): ConfigData
      reads this
    {
      ConfigData(convoyURL, endpointURL, endpointSecret, events, testType, logFile,
                 recvTimeout, recvPort, endpointAuthentication)
    }

    /** `Validate`: a zero number of events becomes `NumEvents` (before the log file
        is checked, so it sticks even when validation fails); an empty log file, as
        judged by `isStringEmpty`, is an error. */
    method Validate(isStringEmpty: string -> bool) returns (err: Option<ConfigError>)
      modifies this
      ensures Data() == old(Data()).(events := if old(events) == 0 then NumEvents else old(events))
      ensures err == (if isStringEmpty(logFile) then Some(EmptyLogFile) else None)
    {
      if events == 0 {
        events := NumEvents;
      }
      if isStringEmpty(logFile) {
        return Some(EmptyLogFile);
      }
      return None;
    }
  }

  /** `Override`: the loop of `overrideFields` over the fields of the old
      configuration, written out field by field. The new configuration is only
      read. */
  method Override(oldCfg: Config, newCfg: Config)
    modifies oldCfg
    ensures oldCfg.Data() == Merged(old(oldCfg.Data()), old(newCfg.Data()))
    ensures oldCfg != newCfg ==> newCfg.Data() == old(newCfg.Data())
  {
    var o, n := oldCfg.Data(), newCfg.Data();
    var m := ConfigData(
      Pick(o.convoyURL, n.convoyURL, ""),
      Pick(o.endpointURL, n.endpointURL, ""),
      Pick(o.endpointSecret, n.endpointSecret, ""),
      Pick(o.events, n.events, 0),
      Pick(o.testType, n.testType, ""),
      Pick(o.logFile, n.logFile, ""),
      Pick(o.recvTimeout, n.recvTimeout, 0),
      Pick(o.recvPort, n.recvPort, ""),
      Pick(o.endpointAuthentication, n.endpointAuthentication, None));
    oldCfg.SetData(m);
  }
}
