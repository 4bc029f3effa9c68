/** The two ordered security filter chains: the internal one, gated by the
    shared secret and requiring the internal role, and the permissive
    fallback for every other path. */
module InternalSecurityConfig {
  import opened Wrappers
  import opened ApiKeyAuthFilter

  /** The sub-path of the internal Ant pattern (the pattern less its
      trailing slash and double star). */
  const InternalPrefix := "/api/v1/internal"
  /** The role `hasRole` demands, before the `ROLE_` prefix is added. */
  const InternalRole := "INTERNAL"
  /** Status of a request the authorization step refuses (no login entry
      point is configured, so refusals are answered as forbidden). */
  const Forbidden := 403

  /** The routing policy in plain terms: the internal prefix itself, or any
      path below it. */
  predicate IsInternalPath(path: string)
  {
    path == InternalPrefix || InternalPrefix + "/" <= path
  }

  /** A request matcher: an Ant pattern made of a sub-path followed by a
      slash and a double star, or any request at all. */
  datatype RequestMatcher = AntSubpath(subpath: string) | AnyRequest

  /** Matching as Spring does for such an Ant sub-path pattern: the path
      starts with the sub-path (case-sensitively) and either ends there or
      continues with `/`. */
  predicate Matches(m: RequestMatcher, path: string)
  {
    match m
    case AnyRequest => true
    case AntSubpath(p) => p <= path && (|path| == |p| || path[|p|] == '/')
  }

  /** An authorization rule: `hasRole(role)` or `permitAll()`. */
  datatype Rule = HasRole(role: string) | PermitAll

  /** A filter of a chain: the API-key gate, or the authorization step with
      its ordered `(matcher, rule)` list. */
  datatype Filter = ApiKeyGate | Authorize(rules: seq<(RequestMatcher, Rule)>)

  datatype SessionPolicy = Stateless | IfRequired

  /** A security filter chain: which requests it applies to, its session
      policy, and its filters in order. */
  datatype FilterChain = FilterChain(matcher: RequestMatcher, session: SessionPolicy, filters: seq<Filter>)

  /** `internalApiSecurityFilterChain`, order 1. */
  const InternalChain := FilterChain(
    AntSubpath(InternalPrefix),
    Stateless,
    [ApiKeyGate, Authorize([(AntSubpath(InternalPrefix), HasRole(InternalRole))])])

  /** `publicApiSecurityFilterChain`, order 2. */
  const PublicChain := FilterChain(AnyRequest, Stateless, [Authorize([(AnyRequest, PermitAll)])])

  /** The chains in the order they are consulted. */
  const Chains := [InternalChain, PublicChain]

  /** What finally happens to a request: it reaches its handler with the
      context authorization saw, or it is answered with a status. */
  datatype Outcome = Handled(context: SecurityContext) | Denied(status: int)

  /** Whether a rule lets a context through; `hasRole(r)` checks for the
      authority `ROLE_` + r. */
  predicate Permits(rule: Rule, context: SecurityContext)
  {
    match rule
    case PermitAll => true
    case HasRole(role) => context.Some? && "ROLE_" + role in context.value.authorities
  }

  /** The first rule whose matcher matches the path is at position `i` and
      lets the context through. */
  ghost predicate DecidedBy(rules: seq<(RequestMatcher, Rule)>, path: string, context: SecurityContext, i: int)
  {
    && 0 <= i < |rules|
    && Matches(rules[i].0, path)
    && Permits(rules[i].1, context)
    && forall j :: 0 <= j < i ==> !Matches(rules[j].0, path)
  }

  /** The authorization step: the first rule whose matcher matches decides;
      a request no rule matches is refused. */
  function AuthorizeRequest(rules: seq<(RequestMatcher, Rule)>, path: string, context: SecurityContext): (r: FilterStep)
    ensures r.Proceed? ==> r.context == context
    ensures r.Reject? ==> r.status == Forbidden
  {
    if rules == [] then Reject(Forbidden)
    else if Matches(rules[0].0, path) then
      if Permits(rules[0].1, context) then Proceed(context) else Reject(Forbidden)
    else
      AuthorizeRequest(rules[1..], path, context)
  }

  /** The authorization step lets a request through exactly when the first
      rule that matches its path permits its context. */
  lemma {:induction false} AuthorizeRequestFirstMatch(rules: seq<(RequestMatcher, Rule)>, path: string, context: SecurityContext)
    ensures AuthorizeRequest(rules, path, context).Proceed? <==> exists i :: DecidedBy(rules, path, context, i)
  {
    if rules != [] && !Matches(rules[0].0, path) {
      AuthorizeRequestFirstMatch(rules[1..], path, context);
      if AuthorizeRequest(rules, path, context).Proceed? {
        var i :| DecidedBy(rules[1..], path, context, i);
        assert rules[1..][i] == rules[i + 1];
        forall j | 0 <= j < i + 1 ensures !Matches(rules[j].0, path) {
          if j > 0 { assert rules[j] == rules[1..][j - 1]; }
        }
        assert DecidedBy(rules, path, context, i + 1);
      }
      if exists i :: DecidedBy(rules, path, context, i) {
        var i :| DecidedBy(rules, path, context, i);
        assert i > 0;
        assert rules[1..][i - 1] == rules[i];
        forall j | 0 <= j < i - 1 ensures !Matches(rules[1..][j].0, path) {
          assert rules[1..][j] == rules[j + 1];
        }
        assert DecidedBy(rules[1..], path, context, i - 1);
      }
    } else if rules != [] {
      if Permits(rules[0].1, context) {
        assert DecidedBy(rules, path, context, 0);
      } else {
        forall i | 0 <= i < |rules| ensures !DecidedBy(rules, path, context, i) {
          if i > 0 { assert !(forall j :: 0 <= j < i ==> !Matches(rules[j].0, path)) by { assert Matches(rules[0].0, path); } }
        }
      }
    }
  }

  /** One filter applied to a request. */
  function ApplyFilter(f: Filter, req: Request, apiKey: string, context: SecurityContext): FilterStep
  {
    match f
    case ApiKeyGate => DoFilterInternal(req, apiKey, context)
    case Authorize(rules) => AuthorizeRequest(rules, req.path, context)
  }

  /** A chain's filters applied in order, each seeing the context the one
      before it left; the first refusal ends the run. */
  function RunFilters(filters: seq<Filter>, req: Request, apiKey: string, context: SecurityContext): FilterStep
    decreases |filters|
  {
    if filters == [] then Proceed(context)
    else
      match ApplyFilter(filters[0], req, apiKey, context)
      case Reject(status) => Reject(status)
      case Proceed(next) => RunFilters(filters[1..], req, apiKey, next)
  }

  /** The position of the first chain whose matcher matches the path. */
  function SelectChain(chains: seq<FilterChain>, path: string): (r: Option<nat>)
    ensures r.Some? ==> r.value < |chains| && Matches(chains[r.value].matcher, path)
    ensures r.Some? ==> forall j :: 0 <= j < r.value ==> !Matches(chains[j].matcher, path)
    ensures r.None? ==> forall j :: 0 <= j < |chains| ==> !Matches(chains[j].matcher, path)
  {
    if chains == [] then None
    else if Matches(chains[0].matcher, path) then Some(0)
    else
      match SelectChain(chains[1..], path)
      case None => None
      case Some(i) => Some(i + 1)
  }

  /** One request through the chains, given the context a session holds.
      A stateless chain neither loads the context from the session nor saves
      it back. A path no chain matches gets no security filters. */
  function Handle(chains: seq<FilterChain>, req: Request, apiKey: string, session: SecurityContext): (Outcome, SecurityContext)
  {
    match SelectChain(chains, req.path)
    case None => (Handled(None), session)
    case Some(i) =>
      var chain := chains[i];
      var initial := if chain.session == Stateless then None else session;
      match RunFilters(chain.filters, req, apiKey, initial)
      case Reject(status) => (Denied(status), session)
      case Proceed(context) => (Handled(context), if chain.session == Stateless then session else context)
  }

  /** A fresh request through the configured chains. */
  function Dispatch(req: Request, apiKey: string): Outcome
  {
    Handle(Chains, req, apiKey, None).0
  }

  /** A sequence of requests from one client, the session carried from each
      to the next. */
  function Serve(chains: seq<FilterChain>, reqs: seq<Request>, apiKey: string, session: SecurityContext): (r: seq<Outcome>)
    ensures |r| == |reqs|
    decreases |reqs|
  {
    if reqs == [] then []
    else
      var (outcome, next) := Handle(chains, reqs[0], apiKey, session);
      [outcome] + Serve(chains, reqs[1..], apiKey, next)
  }

  /** Spring's sub-path match of the internal pattern is the routing policy
      stated plainly. */
  lemma InternalMatcherIsPolicy(path: string)
    ensures Matches(AntSubpath(InternalPrefix), path) <==> IsInternalPath(path)
  {
    var p := InternalPrefix;
    if Matches(AntSubpath(p), path) && |path| != |p| {
      assert path[..|p| + 1] == p + "/";
    }
    if p + "/" <= path {
      assert path[..|p|] == (p + "/")[..|p|] == p;
    }
  }

  /** The internal chain is consulted first: an internal path is handled by
      it although the public chain matches every path; every other path
      falls to the public chain. */
  lemma InternalChainFirst(path: string)
    ensures IsInternalPath(path) ==> SelectChain(Chains, path) == Some(0)
    ensures !IsInternalPath(path) ==> SelectChain(Chains, path) == Some(1)
  {
    InternalMatcherIsPolicy(path);
    assert Chains[1..] == [PublicChain];
  }

  /** End to end: a request reaches its handler exactly when its path is not
      internal or it carries the configured key in `X-INTERNAL-API-KEY`.
      An internal request that gets through carries the internal caller's
      token; one that does not is refused as forbidden. */
  lemma {:induction false} ReachesHandlerIff(req: Request, apiKey: string)
    ensures Dispatch(req, apiKey).Handled? <==>
      !IsInternalPath(req.path) || GetHeader(req, ApiKeyHeader) == Some(apiKey)
    ensures IsInternalPath(req.path) && Dispatch(req, apiKey).Handled? ==>
      Dispatch(req, apiKey).context == Some(InternalAuthentication)
    ensures IsInternalPath(req.path) && GetHeader(req, ApiKeyHeader) != Some(apiKey) ==>
      Dispatch(req, apiKey) == Denied(Forbidden)
  {
    InternalChainFirst(req.path);
    InternalMatcherIsPolicy(req.path);
    var gate := DoFilterInternal(req, apiKey, None);
    var rules := [(AntSubpath(InternalPrefix), HasRole(InternalRole))];
    if IsInternalPath(req.path) {
      assert InternalChain.filters[1..] == [Authorize(rules)];
      var authz := AuthorizeRequest(rules, req.path, gate.context);
      assert RunFilters([Authorize(rules)][1..], req, apiKey, gate.context) == Proceed(gate.context);
      assert RunFilters(InternalChain.filters, req, apiKey, None) == RunFilters([Authorize(rules)], req, apiKey, gate.context);
      assert "ROLE_" + InternalRole == InternalAuthority;
      if GetHeader(req, ApiKeyHeader) == Some(apiKey) {
        assert authz == Proceed(Some(InternalAuthentication));
      } else {
        assert gate.context == None;
        assert authz == Reject(Forbidden);
      }
    } else {
      assert RunFilters(PublicChain.filters, req, apiKey, None) == Proceed(None);
    }
  }

  /** Paths outside the internal prefix are let through, with no token,
      whatever their headers say. */
  lemma PublicPathsPermitted(req: Request, apiKey: string)
    requires !IsInternalPath(req.path)
    ensures Dispatch(req, apiKey) == Handled(None)
  {
    InternalChainFirst(req.path);
    assert RunFilters(PublicChain.filters, req, apiKey, None) == Proceed(None);
  }

  /** The gate has to come first: with authorization placed before it, every
      internal request would be refused, the key notwithstanding. */
  lemma GateBeforeAuthorizationNeeded(req: Request, apiKey: string)
    requires IsInternalPath(req.path)
    ensures RunFilters([InternalChain.filters[1], ApiKeyGate], req, apiKey, None) == Reject(Forbidden)
  {
    InternalMatcherIsPolicy(req.path);
    var rules := [(AntSubpath(InternalPrefix), HasRole(InternalRole))];
    assert InternalChain.filters[1] == Authorize(rules);
    assert AuthorizeRequest(rules, req.path, None) == Reject(Forbidden);
  }

  /** Both chains are stateless, so a client's earlier requests never change
      how a later one is decided: each outcome is the one that request would
      get on its own. */
  lemma {:induction false} ServeIsPerRequest(reqs: seq<Request>, apiKey: string, session: SecurityContext)
    ensures forall i :: 0 <= i < |reqs| ==> Serve(Chains, reqs, apiKey, session)[i] == Dispatch(reqs[i], apiKey)
  {
    if reqs != [] {
      var handled := Handle(Chains, reqs[0], apiKey, session);
      var outcome, next := handled.0, handled.1;
      InternalChainFirst(reqs[0].path);
      assert outcome == Dispatch(reqs[0], apiKey);
      ServeIsPerRequest(reqs[1..], apiKey, next);
      forall i | 0 <= i < |reqs|
        ensures Serve(Chains, reqs, apiKey, session)[i] == Dispatch(reqs[i], apiKey)
      {
        if i > 0 {
          assert reqs[1..][i - 1] == reqs[i];
        }
      }
    }
  }
}
