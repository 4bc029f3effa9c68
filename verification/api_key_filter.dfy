/** The shared-secret gate placed in front of the internal endpoints. */
module ApiKeyAuthFilter {
  import opened Wrappers

  /** The only header the gate reads. */
  const ApiKeyHeader := "X-INTERNAL-API-KEY"
  /** The principal name the gate grants. */
  const InternalPrincipal := "internal-bff"
  /** The single authority the gate grants. */
  const InternalAuthority := "ROLE_INTERNAL"

  /** An inbound request: its path (without context path or query) and its
      headers, each name bound to the value `getHeader` returns. */
  datatype Request = Request(path: string, headers: map<string, string>)

  /** An authentication token: principal, credentials and authorities. */
  datatype Authentication = Authentication(
    principal: string,
    credentials: Option<string>,
    authorities: set<string>)

  /** The per-request security context: the authentication set on it, if
      any. */
  type SecurityContext = Option<Authentication>

  /** What a filter does with a request: hand it on, with the context it
      leaves, or answer it with a status itself. */
  datatype FilterStep = Proceed(context: SecurityContext) | Reject(status: int)

  /** `HttpServletRequest.getHeader`: the value, or null when absent. */
  function GetHeader(req: Request, name: string): Option<string>
  {
    if name in req.headers then Some(req.headers[name]) else None
  }

  /** The token granted on a correct key. */
  const InternalAuthentication := Authentication(InternalPrincipal, None, {InternalAuthority})

  /** `doFilterInternal`: when the key header is present and equal (exactly,
      case included) to the configured key, set the internal caller's token
      on the context; otherwise leave the context alone. Either way the
      request is passed on. */
  function DoFilterInternal(req: Request, apiKey: string, context: SecurityContext): (r: FilterStep)
    ensures r.Proceed?
    ensures ApiKeyHeader in req.headers && req.headers[ApiKeyHeader] == apiKey ==>
      && r.context.Some?
      && r.context.value.principal == InternalPrincipal
      && r.context.value.authorities == {InternalAuthority}
    ensures !(ApiKeyHeader in req.headers && req.headers[ApiKeyHeader] == apiKey) ==> r.context == context
  {
    var requestApiKey := GetHeader(req, ApiKeyHeader);
    if requestApiKey.Some? && requestApiKey.value == apiKey then
      Proceed(Some(InternalAuthentication))
    else
      Proceed(context)
  }

  /** The gate's decision depends on the request only through the value of
      `X-INTERNAL-API-KEY`: the path and every other header are ignored. */
  lemma OnlyKeyHeaderMatters(req1: Request, req2: Request, apiKey: string, context: SecurityContext)
    requires GetHeader(req1, ApiKeyHeader) == GetHeader(req2, ApiKeyHeader)
    ensures DoFilterInternal(req1, apiKey, context) == DoFilterInternal(req2, apiKey, context)
  {
  }

  /** The gate grants (changes the context) exactly when the header carries
      the configured key, and then the result does not depend on the context
      it was given. */
  lemma GrantsIffKeyMatches(req: Request, apiKey: string)
    ensures DoFilterInternal(req, apiKey, None).context.Some? <==> GetHeader(req, ApiKeyHeader) == Some(apiKey)
    ensures forall c: SecurityContext :: GetHeader(req, ApiKeyHeader) == Some(apiKey) ==>
      DoFilterInternal(req, apiKey, c) == Proceed(Some(InternalAuthentication))
  {
  }
}
