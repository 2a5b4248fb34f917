/** case.go: the test cases of a suite, as read from its file. */
module Cases {
  import opened Wrappers
  import opened Json
  import opened Methods

  /** `Callback`: whether the case waits for callbacks, and how many (a `uint`). */
  datatype CallbackSpec = CallbackSpec(enabled: bool, times: nat)

  /** `SetupTestCase`. `storeResponseVariables` is the variable-to-path map in its
      iteration order, `None` when it is nil. */
  datatype SetupTestCase = SetupTestCase(
    name: string,
    storeResponseVariables: Option<seq<(string, string)>>,
    requestBody: Fields,
    responseBody: bool,
    endpoint: string,
    httpMethod: Method,
    statusCode: int)

  /** `TestCase`. */
  datatype TestCase = TestCase(
    name: string,
    setup: seq<string>,
    statusCode: int,
    httpMethod: Method,
    endpoint: string,
    responseBody: bool,
    callback: CallbackSpec,
    requestBody: Fields)
}
