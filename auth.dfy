/** auth/authenticator.go: how the receiver decides whether an incoming event
    request is authenticated. */
module Auth {
  import opened Wrappers
  import opened Http
  import opened Configs

  /** The two implementations of `Authenticator`. */
  datatype Authenticator =
    | Noop
    | ApiKeyAuth(headerName: string, headerValue: string)

  const ApiKeyType := "api_key"

  /** `NewAuthenticator`, given the configuration's `EndpointAuthentication`. The
      source dereferences `ApiKey` without a check, so an "api_key" authentication
      must carry one. */
  function NewAuthenticator(auth: Option<EndpointAuthentication>): (a: Authenticator)
    requires auth.Some? && auth.value.authType == ApiKeyType ==> auth.value.apiKey.Some?
    ensures a.ApiKeyAuth? <==> auth.Some? && auth.value.authType == ApiKeyType
    ensures a.ApiKeyAuth? ==>
              && a.headerName == auth.value.apiKey.value.headerName
              && a.headerValue == auth.value.apiKey.value.headerValue
  {
    match auth
    case None => Noop
    case Some(ea) =>
      if ea.authType == ApiKeyType then ApiKeyAuth(ea.apiKey.value.headerName, ea.apiKey.value.headerValue)
      else Noop
  }

  /** `Authenticate` of either implementation. */
  function Authenticate(a: Authenticator, h: Header): (ok: bool)
    ensures a.Noop? ==> ok
    ensures a.ApiKeyAuth? ==> (ok <==> HeaderGet(h, a.headerName) == a.headerValue)
  {
    match a
    case Noop => true
    case ApiKeyAuth(name, value) => HeaderGet(h, name) == value
  }

  /** A request is refused exactly when the configuration asks for an api key and
      the request's header under the configured name (read as "" when absent)
      differs from the configured value. */
  lemma AuthenticateRefuses(auth: Option<EndpointAuthentication>, h: Header)
    requires auth.Some? && auth.value.authType == ApiKeyType ==> auth.value.apiKey.Some?
    ensures !Authenticate(NewAuthenticator(auth), h) <==>
              && auth.Some? && auth.value.authType == ApiKeyType
              && HeaderGet(h, auth.value.apiKey.value.headerName) != auth.value.apiKey.value.headerValue
  {
  }

  /** With an empty configured value, a request without the header is accepted. */
  lemma EmptyKeyAcceptsMissingHeader(name: string, h: Header)
    requires Canonical(name) !in h
    ensures Authenticate(NewAuthenticator(Some(EndpointAuthentication(ApiKeyType, Some(ApiKey("", name))))), h)
  {
  }
}
