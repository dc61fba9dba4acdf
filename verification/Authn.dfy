/** The credentials a listener accepts (internal/infra/connect/authn and the public half of connect.go). */
module Authn {
  import opened Common
  import opened Text
  import opened Registry
  import opened Scopes

  /** Header values under their canonical names. */
  type Header = map<string, seq<string>>

  const WORKLOAD_AUTHORIZATION := "Workload-Authorization"
  const SERVERLESS_AUTHORIZATION := "X-Serverless-Authorization"
  const AUTHORIZATION := "Authorization"
  const DPOP := "Dpop"
  const CALLER_SERVICE := "Tolo-Caller-Service"

  datatype ExternalToken = ExternalToken(subject: string, clientID: string, tokenUse: string, scope: string, jti: string,
                                         tenantID: string, eventID: string, expiresAt: int, senderConstrained: bool)

  datatype VerifyError = VerifierUnavailable | NotVerified
  type Verifier = string -> Result<ExternalToken, VerifyError>

  /** Whether the IdP still calls the token active; None when it cannot be asked. */
  type Introspection = (string, ExternalToken) -> Option<bool>

  datatype Authenticator = Authenticator(verifier: Option<Verifier>, introspector: Option<Introspection>)

  datatype Code = Unauthenticated | PermissionDenied | Unavailable | InternalError
  datatype Reason =
    | CallerServiceOnPublic | WorkloadAuthorization | DPoPUnsupported | AnonymousRejected
    | MalformedAuthorization | ExternalAuthorization | VerifierUnavailableReason | InvalidToken | SenderConstrainedUnsupported
    | InternalOnly | TokenUseMismatch | MissingScope | IntrospectionUnavailable | TokenRevoked | IssueFailed
    | AmbiguousServiceCredential | MissingServiceCredential | MalformedCallerService | InvalidContext
  datatype Rejection = Rejection(code: Code, reason: Reason)

  function Refused(reason: Reason): Rejection {
    Rejection(Unauthenticated, reason)
  }

  function Lower(c: char): char {
    if 'A' <= c <= 'Z' then (c as int - 'A' as int + 'a' as int) as char else c
  }

  /** strings.EqualFold with "bearer", none of whose letters has a fold outside ASCII. */
  predicate IsBearer(scheme: string) {
    |scheme| == 6 && forall i :: 0 <= i < 6 ==> Lower(scheme[i]) == "bearer"[i]
  }

  function BearerToken(values: seq<string>): Option<string> {
    if |values| != 1 then None else
    var fields := Fields(values[0]);
    if |fields| != 2 || !IsBearer(fields[0]) then None else Some(fields[1])
  }

  // ----- The public listener -----

  /** The external token if one was verified, and the rejection if there is one. */
  datatype AuthResult = AuthResult(external: Option<ExternalToken>, rejection: Option<Rejection>)

  function Authenticate(a: Authenticator, header: Header, entry: Entry): AuthResult {
    if CALLER_SERVICE in header then AuthResult(None, Some(Refused(CallerServiceOnPublic)))
    else if WORKLOAD_AUTHORIZATION in header || SERVERLESS_AUTHORIZATION in header then
      AuthResult(None, Some(Refused(WorkloadAuthorization)))
    else if DPOP in header then AuthResult(None, Some(Refused(DPoPUnsupported)))
    else if AUTHORIZATION !in header then
      AuthResult(None, if entry.anonymous then None else Some(Refused(AnonymousRejected)))
    else ExternalCall(a, header[AUTHORIZATION], entry)
  }

  function ExternalCall(a: Authenticator, values: seq<string>, entry: Entry): AuthResult {
    var token := BearerToken(values);
    if token.None? then AuthResult(None, Some(Refused(MalformedAuthorization)))
    else if a.verifier.None? then AuthResult(None, Some(Refused(ExternalAuthorization)))
    else
      match (a.verifier.value)(token.value)
      case Err(VerifierUnavailable) => AuthResult(None, Some(Rejection(Unavailable, VerifierUnavailableReason)))
      case Err(NotVerified) => AuthResult(None, Some(Refused(InvalidToken)))
      case Ok(verified) =>
        if verified.senderConstrained then AuthResult(None, Some(Refused(SenderConstrainedUnsupported)))
        else AuthResult(Some(verified), Authorize(a, token.value, verified, entry))
  }

  function Authorize(a: Authenticator, raw: string, token: ExternalToken, entry: Entry): Option<Rejection> {
    if entry.externalTokenUses == [] then
      Some(if entry.service then Rejection(PermissionDenied, InternalOnly) else Refused(TokenUseMismatch))
    else if token.tokenUse !in entry.externalTokenUses then Some(Refused(TokenUseMismatch))
    else if !Grants(token.scope, entry.requiredScopes) then Some(Rejection(PermissionDenied, MissingScope))
    else if entry.introspection then Introspect(a, raw, token)
    else None
  }

  function Introspect(a: Authenticator, raw: string, token: ExternalToken): Option<Rejection> {
    if a.introspector.None? then Some(Refused(IntrospectionUnavailable)) else
    match (a.introspector.value)(raw, token)
    case None => Some(Refused(IntrospectionUnavailable))
    case Some(active) => if active then None else Some(Refused(TokenRevoked))
  }

  /** What is handed to the issuer for an external token. */
  datatype ExternalInput = ExternalInput(audience: string, token: ExternalToken)

  /** Issuing from an external token: the issued token, or None when it fails. */
  type EntryIssuer = ExternalInput -> Option<string>

  /** The internal token of an admitted request; an anonymous one carries none. */
  function PublicAdmit(a: Authenticator, issuer: Option<EntryIssuer>, header: Header, entry: Entry): Result<Option<string>, Rejection> {
    var result := Authenticate(a, header, entry);
    if result.rejection.Some? then Err(result.rejection.value)
    else if result.external.None? then Ok(None)
    else if issuer.None? then Err(Rejection(InternalError, IssueFailed))
    else
      match (issuer.value)(ExternalInput(entry.destination, result.external.value))
      case None => Err(Rejection(InternalError, IssueFailed))
      case Some(token) => Ok(Some(token))
  }

  /** The headers that say who calls. */
  const CREDENTIALS := {WORKLOAD_AUTHORIZATION, SERVERLESS_AUTHORIZATION, AUTHORIZATION, DPOP, CALLER_SERVICE}

  /** The one bearer token of a request that carries no other credential. */
  ghost predicate CarriesOnlyBearer(header: Header, token: string) {
    header.Keys * CREDENTIALS == {AUTHORIZATION} && BearerToken(header[AUTHORIZATION]) == Some(token)
  }

  /** The token is verified, bound to no sender, and has everything the entry asks of an external token. */
  ghost predicate TokenServes(a: Authenticator, raw: string, token: ExternalToken, entry: Entry) {
    && a.verifier.Some? && (a.verifier.value)(raw) == Ok(token)
    && !token.senderConstrained
    && token.tokenUse in entry.externalTokenUses
    && (forall i :: 0 <= i < |entry.requiredScopes| ==> entry.requiredScopes[i] in Fields(token.scope))
    && (entry.introspection ==> a.introspector.Some? && (a.introspector.value)(raw, token) == Some(true))
  }

  /**
   The public listener admits a request exactly when it either carries none of the five credential headers and
   the procedure is anonymous, or carries only one bearer token, which serves the entry and is exchanged.
   */
  lemma PublicAdmitsExactly(a: Authenticator, issuer: Option<EntryIssuer>, header: Header, entry: Entry)
    ensures PublicAdmit(a, issuer, header, entry) == Ok(None) <==> header.Keys !! CREDENTIALS && entry.anonymous
    ensures forall issued :: PublicAdmit(a, issuer, header, entry) == Ok(Some(issued)) <==>
              exists raw, token :: CarriesOnlyBearer(header, raw) && TokenServes(a, raw, token, entry)
                && issuer.Some? && (issuer.value)(ExternalInput(entry.destination, token)) == Some(issued)
  {
    HeaderCases(header);
    forall issued
      ensures PublicAdmit(a, issuer, header, entry) == Ok(Some(issued)) <==>
              exists raw, token :: CarriesOnlyBearer(header, raw) && TokenServes(a, raw, token, entry)
                && issuer.Some? && (issuer.value)(ExternalInput(entry.destination, token)) == Some(issued)
    {
      if PublicAdmit(a, issuer, header, entry) == Ok(Some(issued)) {
        var raw := BearerToken(header[AUTHORIZATION]).value;
        var token := Authenticate(a, header, entry).external.value;
        assert CarriesOnlyBearer(header, raw) && TokenServes(a, raw, token, entry);
      }
    }
  }

  lemma HeaderCases(header: Header)
    ensures header.Keys !! CREDENTIALS <==>
            CALLER_SERVICE !in header && WORKLOAD_AUTHORIZATION !in header && SERVERLESS_AUTHORIZATION !in header
            && DPOP !in header && AUTHORIZATION !in header
    ensures header.Keys * CREDENTIALS == {AUTHORIZATION} <==>
            CALLER_SERVICE !in header && WORKLOAD_AUTHORIZATION !in header && SERVERLESS_AUTHORIZATION !in header
            && DPOP !in header && AUTHORIZATION in header
  {
    HeadersDiffer();
    assert forall h :: h in header.Keys * CREDENTIALS <==> h in header && h in CREDENTIALS;
  }

  lemma HeadersDiffer()
    ensures AUTHORIZATION !in [WORKLOAD_AUTHORIZATION, SERVERLESS_AUTHORIZATION, DPOP, CALLER_SERVICE]
  {
    assert AUTHORIZATION[0] == 'A' && WORKLOAD_AUTHORIZATION[0] == 'W' && SERVERLESS_AUTHORIZATION[0] == 'X'
           && DPOP[0] == 'D' && CALLER_SERVICE[0] == 'T';
  }

  // ----- The internal listener -----

  datatype ServiceCredential = ServiceCredential(caller: string, contextToken: string)

  /** The audiences a token claims, unverified; None when it cannot be parsed. */
  type Audiences = string -> Option<seq<string>>

  function ServiceCall(audiences: Audiences, header: Header): Result<ServiceCredential, Rejection> {
    if DPOP in header then Err(Refused(DPoPUnsupported))
    else if AUTHORIZATION in header && CALLER_SERVICE in header then Err(Refused(AmbiguousServiceCredential))
    else if CALLER_SERVICE in header then
      var callers := header[CALLER_SERVICE];
      if |callers| != 1 || callers[0] == "" then Err(Refused(MalformedCallerService))
      else Ok(ServiceCredential(callers[0], ""))
    else if AUTHORIZATION in header then
      var token := BearerToken(header[AUTHORIZATION]);
      if token.None? then Err(Refused(MalformedAuthorization)) else
      var claimed := audiences(token.value);
      if claimed.None? || |claimed.value| != 1 || claimed.value[0] == "" then Err(Refused(InvalidContext))
      else Ok(ServiceCredential(claimed.value[0], token.value))
    else Err(Refused(MissingServiceCredential))
  }

  /**
   The legacy scope rewrite never makes the scope check refuse a token whose own scope passed it, unless the
   procedure requires the legacy scope itself; what is left to decide is the revocation check.
   */
  lemma RewriteRefusesOnlyTheLegacyScope(a: Authenticator, raw: string, token: ExternalToken, entry: Entry)
    requires LEGACY in Fields(token.scope)
    requires Authorize(a, raw, token, entry).None?
    ensures var rewritten := token.(scope := Expanded(token.scope));
            Authorize(a, raw, rewritten, entry) ==
              if LEGACY in entry.requiredScopes then Some(Rejection(PermissionDenied, MissingScope))
              else if entry.introspection then Introspect(a, raw, rewritten)
              else None
  {
    ExpandedGrants(token.scope, entry.requiredScopes);
  }

  // ----- The external IdP as verifier and introspector (internal/idp/idp.go) -----

  /** Once the IdP is resolved: what verifying a token gives, and its verdict cache asked by jti and expiry. */
  datatype Provider = Provider(resolved: bool, check: Verifier, active: Option<(string, string, int) -> Option<bool>>,
                               legacyEventsWriteScope: bool)

  function Verify(p: Provider, raw: string): Result<ExternalToken, VerifyError> {
    if !p.resolved then Err(VerifierUnavailable) else
    match p.check(raw)
    case Err(e) => Err(e)
    case Ok(token) => Ok(if p.legacyEventsWriteScope then token.(scope := Expanded(token.scope)) else token)
  }

  function Active(p: Provider, raw: string, token: ExternalToken): Option<bool> {
    if !p.resolved || p.active.None? then None else (p.active.value)(raw, token.jti, token.expiresAt)
  }

  function AuthenticatorOf(p: Provider): Authenticator {
    Authenticator(Some((raw: string) => Verify(p, raw)), Some((raw: string, token: ExternalToken) => Active(p, raw, token)))
  }

  /**
   Switching the legacy rewrite on refuses a request that was admitted without it exactly when the request came
   with a token and the procedure requires the legacy scope itself.
   */
  lemma SwitchRefusesOnlyTheLegacyScope(p: Provider, header: Header, entry: Entry)
    requires !p.legacyEventsWriteScope && Authenticate(AuthenticatorOf(p), header, entry).rejection.None?
    ensures var on := Authenticate(AuthenticatorOf(p.(legacyEventsWriteScope := true)), header, entry);
            on.rejection.None? <==> Authenticate(AuthenticatorOf(p), header, entry).external.None? || LEGACY !in entry.requiredScopes
  {
    var off := Authenticate(AuthenticatorOf(p), header, entry);
    if off.external.Some? && LEGACY in Fields(off.external.value.scope) {
      ExpandedGrants(off.external.value.scope, entry.requiredScopes);
    }
  }

  /**
   With the IdP as verifier and introspector, a token is exchanged exactly when the IdP is resolved and vouches for
   it, and the token serves the entry with its own scope or, with the rewrite switched on, the rewritten one, which is
   also the scope handed to the issuer. The revocation check asks about the jti and expiry of the token.
   */
  lemma ProviderAdmitsExactly(p: Provider, issuer: EntryIssuer, header: Header, entry: Entry, issued: string)
    ensures PublicAdmit(AuthenticatorOf(p), Some(issuer), header, entry) == Ok(Some(issued)) <==>
            exists raw, token :: CarriesOnlyBearer(header, raw) && VouchedFor(p, raw, token, entry)
              && issuer(ExternalInput(entry.destination, token.(scope := ScopeFor(p, token)))) == Some(issued)
  {
    var a := AuthenticatorOf(p);
    PublicAdmitsExactly(a, Some(issuer), header, entry);
    if PublicAdmit(a, Some(issuer), header, entry) == Ok(Some(issued)) {
      var raw, token :| CarriesOnlyBearer(header, raw) && TokenServes(a, raw, token, entry)
                        && issuer(ExternalInput(entry.destination, token)) == Some(issued);
      assert VouchedFor(p, raw, p.check(raw).value, entry);
    }
    if raw, token :| CarriesOnlyBearer(header, raw) && VouchedFor(p, raw, token, entry)
                     && issuer(ExternalInput(entry.destination, token.(scope := ScopeFor(p, token)))) == Some(issued) {
      assert TokenServes(a, raw, token.(scope := ScopeFor(p, token)), entry);
    }
  }

  function ScopeFor(p: Provider, token: ExternalToken): string {
    if p.legacyEventsWriteScope then Expanded(token.scope) else token.scope
  }

  /** The IdP vouches for the token, and it has everything the entry asks for. */
  ghost predicate VouchedFor(p: Provider, raw: string, token: ExternalToken, entry: Entry) {
    && p.resolved && p.check(raw) == Ok(token)
    && !token.senderConstrained && token.tokenUse in entry.externalTokenUses
    && (forall i :: 0 <= i < |entry.requiredScopes| ==> entry.requiredScopes[i] in Fields(ScopeFor(p, token)))
    && (entry.introspection ==> p.active.Some? && (p.active.value)(raw, token.jti, token.expiresAt) == Some(true))
  }

  /**
   A procedure of a built table exchanges no token that lacks a scope its policy requires, or a token use its policy
   declares other than "service".
   */
  lemma PolicyIsEnforced(bindings: seq<Binding>, listed: seq<string>, resolver: Resolver, i: nat, p: string,
                         a: Authenticator, issuer: Option<EntryIssuer>, header: Header, issued: string)
    requires WellFormed(bindings, listed, resolver) && i < |bindings| && p in bindings[i].policies
    requires p in Introspected(AllEntries(bindings), Elements(listed))
    requires PublicAdmit(a, issuer, header, Introspected(AllEntries(bindings), Elements(listed))[p]) == Ok(Some(issued))
    ensures exists raw, token ::
              && CarriesOnlyBearer(header, raw) && a.verifier.Some? && (a.verifier.value)(raw) == Ok(token)
              && MeetsPolicy(token, bindings[i].policies[p])
  {
    var entry := Introspected(AllEntries(bindings), Elements(listed))[p];
    BuiltEntry(bindings, listed, resolver, i, p);
    PublicAdmitsExactly(a, issuer, header, entry);
    var raw, token :| CarriesOnlyBearer(header, raw) && TokenServes(a, raw, token, entry);
    assert MeetsPolicy(token, bindings[i].policies[p]);
  }

  /** The token is for a declared use other than "service", and grants every scope the policy requires. */
  ghost predicate MeetsPolicy(token: ExternalToken, policy: Policy) {
    && token.tokenUse in policy.tokenUses && token.tokenUse != "service"
    && forall n :: 0 <= n < |policy.requiredScopes| ==> policy.requiredScopes[n] in Fields(token.scope)
  }

  // ----- How requests are refused -----

  /** The scheme is "bearer" in any mixture of cases. */
  lemma BearerInAnyCase(scheme: string)
    ensures IsBearer(scheme) <==> |scheme| == 6 && forall i :: 0 <= i < 6 ==> scheme[i] == "bearer"[i] || scheme[i] == "BEARER"[i]
  {
    assert forall i :: 0 <= i < 6 ==> ("BEARER"[i] as int) + 32 == "bearer"[i] as int;
  }

  /** One header value of two words, the first of them the scheme, carries the second. */
  lemma BearerTokenExactly(values: seq<string>, token: string)
    ensures BearerToken(values) == Some(token) <==>
            |values| == 1 && exists scheme :: IsBearer(scheme) && Fields(values[0]) == [scheme, token]
  {
    if BearerToken(values) == Some(token) {
      var fields := Fields(values[0]);
      assert fields == [fields[0], token];
    }
  }

  /** The only bearer token of the request is verified, as this token, and bound to no sender. */
  ghost predicate Verified(a: Authenticator, header: Header, raw: string, token: ExternalToken) {
    && CarriesOnlyBearer(header, raw) && a.verifier.Some? && (a.verifier.value)(raw) == Ok(token) && !token.senderConstrained
  }

  /** Some scope is required that the token does not grant. */
  ghost predicate LacksScope(token: ExternalToken, entry: Entry) {
    exists n :: 0 <= n < |entry.requiredScopes| && entry.requiredScopes[n] !in Fields(token.scope)
  }

  /** A verified token is not enough: the procedure is for services alone, or the token lacks a scope. */
  ghost predicate Forbidden(token: ExternalToken, entry: Entry) {
    if entry.externalTokenUses == [] then entry.service else token.tokenUse in entry.externalTokenUses && LacksScope(token, entry)
  }

  /** The verifier of the IdP cannot be asked about the only bearer token of the request. */
  ghost predicate CannotVerify(a: Authenticator, header: Header, raw: string) {
    CarriesOnlyBearer(header, raw) && a.verifier.Some? && (a.verifier.value)(raw) == Err(VerifierUnavailable)
  }

  /**
   Which code a refused request gets: permission denied exactly when its token is verified but not enough for the
   procedure, unavailable exactly when the verifier cannot be asked, internal exactly when an authorized token cannot
   be exchanged, and unauthenticated otherwise.
   */
  lemma RefusalCodes(a: Authenticator, issuer: Option<EntryIssuer>, header: Header, entry: Entry)
    requires PublicAdmit(a, issuer, header, entry).Err?
    ensures var code := PublicAdmit(a, issuer, header, entry).error.code;
            && (code == PermissionDenied <==> exists raw, token :: Verified(a, header, raw, token) && Forbidden(token, entry))
            && (code == Unavailable <==> exists raw :: CannotVerify(a, header, raw))
            && (code == InternalError <==> exists raw, token :: CarriesOnlyBearer(header, raw) && TokenServes(a, raw, token, entry))
  {
    HeaderCases(header);
    if header.Keys * CREDENTIALS == {AUTHORIZATION} && BearerToken(header[AUTHORIZATION]).Some? {
      TokenRefusalCodes(a, issuer, header, entry, BearerToken(header[AUTHORIZATION]).value);
    }
  }

  lemma TokenRefusalCodes(a: Authenticator, issuer: Option<EntryIssuer>, header: Header, entry: Entry, raw: string)
    requires PublicAdmit(a, issuer, header, entry).Err? && CarriesOnlyBearer(header, raw)
    ensures var code := PublicAdmit(a, issuer, header, entry).error.code;
            && (code == PermissionDenied <==> exists token :: Verified(a, header, raw, token) && Forbidden(token, entry))
            && (code == Unavailable <==> CannotVerify(a, header, raw))
            && (code == InternalError <==> exists token :: CarriesOnlyBearer(header, raw) && TokenServes(a, raw, token, entry))
  {
    HeaderCases(header);
    if a.verifier.Some? && (a.verifier.value)(raw).Ok? {
      var token := (a.verifier.value)(raw).value;
      assert Verified(a, header, raw, token) <==> !token.senderConstrained;
      assert LacksScope(token, entry) <==> !Grants(token.scope, entry.requiredScopes);
      assert PublicAdmit(a, issuer, header, entry).error.code == InternalError <==> TokenServes(a, raw, token, entry);
    }
  }
}
