/** One hop of a service call chain (internal/reissue/reissue.go, the internal half of connect.go). */
module Reissuing {
  import opened Common
  import opened Registry
  import opened EdgePolicy
  import opened Authn
  import Text

  /** The claims of an internal JWT; an absent claim is the empty string. */
  datatype Claims = Claims(sub: string, aud: string, jti: string, txn: string, tokenUse: string, clientID: string,
                           scope: string, srcJti: string, originSub: string, tenantID: string, eventID: string)

  datatype Issued = Issued(token: string, claims: Claims)

  /** What is handed to the issuer. */
  datatype ServiceInput =
    | UserOriginService(audience: string, caller: string, context: Claims)
    | MachineOriginService(audience: string, caller: string, chained: Option<Claims>)

  datatype IssueError = ContextExpired | IssuerFailed

  /** The verifier takes a context token and the service presenting it. */
  type ContextVerifier = (string, string) -> Option<Claims>
  type ServiceIssuer = ServiceInput -> Result<Issued, IssueError>

  datatype Origin = OriginUser | OriginMachineChain | OriginNewMachine

  datatype Request = Request(caller: string, procedure: string, contextToken: string)
  datatype Reissued = Reissued(issued: Issued, edge: Edge, origin: Origin)
  datatype Error = InvalidRequest | EdgeNotAllowed | UnknownProcedure | ContextRequired | InvalidContext | IssueFailed

  datatype Reissuer = Reissuer(entries: Entries, policy: EdgePolicy.Policy, contexts: ContextVerifier, tokens: ServiceIssuer)

  predicate IsUserOrigin(c: Claims) {
    c.tokenUse in [TENANT_ACCESS, EVENT_ACCESS, REGISTRATION] || (c.tokenUse == SERVICE && c.originSub != "")
  }

  /** What a request is worth before anything is issued: the edge it may use and what to ask of the issuer. */
  datatype Plan = Plan(input: ServiceInput, edge: Edge, origin: Origin)

  function PlanOf(r: Reissuer, request: Request): Result<Plan, Error> {
    if request.caller == "" || request.procedure == "" then Err(InvalidRequest) else
    var context := if request.contextToken == "" then None else r.contexts(request.contextToken, request.caller);
    if request.contextToken != "" && context.None? then Err(Error.InvalidContext)
    else if (request.caller, request.procedure) !in r.policy then Err(EdgeNotAllowed)
    else if request.procedure !in r.entries then Err(Error.UnknownProcedure)
    else
      var edge := r.policy[(request.caller, request.procedure)];
      var audience := r.entries[request.procedure].destination;
      if context.None? then NewMachineOrigin(request.caller, audience, edge)
      else if IsUserOrigin(context.value) then UserOrigin(request.caller, audience, edge, context.value)
      else if context.value.tokenUse == SERVICE then MachineChain(request.caller, audience, edge, context.value)
      else Err(Error.InvalidContext)
  }

  function NewMachineOrigin(caller: string, audience: string, edge: Edge): Result<Plan, Error> {
    if !edge.newMachineOrigin then Err(ContextRequired)
    else Ok(Plan(MachineOriginService(audience, caller, None), edge, OriginNewMachine))
  }

  function UserOrigin(caller: string, audience: string, edge: Edge, context: Claims): Result<Plan, Error> {
    if context.tokenUse !in edge.userOriginTokenUses then Err(EdgeNotAllowed)
    else Ok(Plan(UserOriginService(audience, caller, context), edge, OriginUser))
  }

  function MachineChain(caller: string, audience: string, edge: Edge, context: Claims): Result<Plan, Error> {
    if !edge.machineChain then Err(EdgeNotAllowed)
    else Ok(Plan(MachineOriginService(audience, caller, Some(context)), edge, OriginMachineChain))
  }

  function Reissue(r: Reissuer, request: Request): Result<Reissued, Error> {
    match PlanOf(r, request)
    case Err(e) => Err(e)
    case Ok(plan) =>
      match r.tokens(plan.input)
      case Err(ContextExpired) => Err(Error.InvalidContext)
      case Err(IssuerFailed) => Err(Error.IssueFailed)
      case Ok(issued) => Ok(Reissued(issued, plan.edge, plan.origin))
  }

  /** The internal listener: identify the caller, then reissue for the procedure that was called. */
  function ServiceAdmit(r: Reissuer, audiences: Audiences, header: Header, entry: Entry): Result<Reissued, Option<Error>> {
    match ServiceCall(audiences, header)
    case Err(_) => Err(None)
    case Ok(credential) =>
      match Reissue(r, Request(credential.caller, entry.procedure, credential.contextToken))
      case Err(e) => Err(Some(e))
      case Ok(reissued) => Ok(reissued)
  }

  /** The request declares its caller and presents no token. */
  ghost predicate DeclaresCaller(header: Header, caller: string) {
    && DPOP !in header && AUTHORIZATION !in header
    && CALLER_SERVICE in header && header[CALLER_SERVICE] == [caller] && caller != ""
  }

  /** The request presents one bearer token, addressed to this service alone. */
  ghost predicate PresentsContext(audiences: Audiences, header: Header, caller: string, raw: string) {
    && DPOP !in header && CALLER_SERVICE !in header
    && AUTHORIZATION in header && BearerToken(header[AUTHORIZATION]) == Some(raw)
    && audiences(raw) == Some([caller]) && caller != ""
  }

  /** The request comes from this service, in this verified context if in any. */
  ghost predicate ComesFrom(r: Reissuer, audiences: Audiences, header: Header, caller: string, context: Option<Claims>) {
    match context
    case None => DeclaresCaller(header, caller)
    case Some(_) => exists raw :: PresentsContext(audiences, header, caller, raw) && r.contexts(raw, caller) == context
  }

  /** The policy lets the service call the procedure in this context, and this is what the issuer is asked for. */
  ghost predicate Asks(r: Reissuer, caller: string, context: Option<Claims>, procedure: string, input: ServiceInput) {
    && (caller, procedure) in r.policy && procedure in r.entries
    && var edge, audience := r.policy[(caller, procedure)], r.entries[procedure].destination;
       if context.None? then edge.newMachineOrigin && input == MachineOriginService(audience, caller, None)
       else if IsUserOrigin(context.value) then
         context.value.tokenUse in edge.userOriginTokenUses && input == UserOriginService(audience, caller, context.value)
       else
         && context.value.tokenUse == SERVICE && edge.machineChain
         && input == MachineOriginService(audience, caller, context)
  }

  /** Called from here in this context, the procedure is permitted, and the issuer answers with this token. */
  ghost predicate Earns(r: Reissuer, audiences: Audiences, header: Header, entry: Entry, issued: Issued,
                        caller: string, context: Option<Claims>, input: ServiceInput)
  {
    && ComesFrom(r, audiences, header, caller, context)
    && Asks(r, caller, context, entry.procedure, input)
    && r.tokens(input) == Ok(issued)
  }

  /**
   The internal listener admits a request with this token exactly when it comes from a service, declared or named
   by the one verified token it presents, which the policy lets call the procedure in just that context, and the
   issuer answers the matching question with this token.
   */
  lemma ServiceAdmitsExactly(r: Reissuer, audiences: Audiences, header: Header, entry: Entry, issued: Issued)
    requires entry.procedure != ""
    ensures (ServiceAdmit(r, audiences, header, entry).Ok? && ServiceAdmit(r, audiences, header, entry).value.issued == issued) <==>
            exists caller, context, input :: Earns(r, audiences, header, entry, issued, caller, context, input)
  {
    if ServiceAdmit(r, audiences, header, entry).Ok? && ServiceAdmit(r, audiences, header, entry).value.issued == issued {
      AdmittedComesFrom(r, audiences, header, entry, issued);
    }
    if caller, context, input :| Earns(r, audiences, header, entry, issued, caller, context, input) {
      ComingFromIsAdmitted(r, audiences, header, entry, issued, caller, context, input);
    }
  }

  lemma AdmittedComesFrom(r: Reissuer, audiences: Audiences, header: Header, entry: Entry, issued: Issued)
    requires ServiceAdmit(r, audiences, header, entry).Ok? && ServiceAdmit(r, audiences, header, entry).value.issued == issued
    ensures exists caller, context, input :: Earns(r, audiences, header, entry, issued, caller, context, input)
  {
    var credential := ServiceCall(audiences, header).value;
    var caller, raw := credential.caller, credential.contextToken;
    var context := if raw == "" then None else r.contexts(raw, caller);
    var input := PlanOf(r, Request(caller, entry.procedure, raw)).value.input;
    if AUTHORIZATION in header {
      BearerIsNotEmpty(header, raw);
      assert audiences(raw).value == [caller];
      assert PresentsContext(audiences, header, caller, raw);
    } else {
      assert header[CALLER_SERVICE] == [caller];
    }
    assert ComesFrom(r, audiences, header, caller, context);
    assert Earns(r, audiences, header, entry, issued, caller, context, input);
  }

  lemma ComingFromIsAdmitted(r: Reissuer, audiences: Audiences, header: Header, entry: Entry, issued: Issued,
                             caller: string, context: Option<Claims>, input: ServiceInput)
    requires entry.procedure != "" && Earns(r, audiences, header, entry, issued, caller, context, input)
    ensures ServiceAdmit(r, audiences, header, entry).Ok? && ServiceAdmit(r, audiences, header, entry).value.issued == issued
  {
    if context.Some? {
      var raw :| PresentsContext(audiences, header, caller, raw) && r.contexts(raw, caller) == context;
      BearerIsNotEmpty(header, raw);
      assert ServiceCall(audiences, header) == Ok(ServiceCredential(caller, raw));
    } else {
      assert ServiceCall(audiences, header) == Ok(ServiceCredential(caller, ""));
    }
  }

  /** The verified context, of a request that presents one. */
  function ContextOf(r: Reissuer, caller: string, raw: string): Option<Claims> {
    if raw == "" then None else r.contexts(raw, caller)
  }

  /**
   Why a reissue is refused, by what the request has. A context that does not verify is invalid whatever the policy
   says. Otherwise a pair without an edge is not allowed. A caller without a context needs one, a user's or a
   machine's context is not allowed, unless the edge accepts just that, and any other context is invalid. What is left
   to fail is the issuer: an expired context is invalid.
   */
  lemma ReissueRefusesExactlyAs(r: Reissuer, edges: seq<Edge>, caller: string, procedure: string, raw: string)
    requires EdgesOk(edges, r.entries) && HoldsEdges(r.policy, edges) && caller != "" && procedure != ""
    ensures var answer, context := Reissue(r, Request(caller, procedure, raw)), ContextOf(r, caller, raw);
            if raw != "" && context.None? then answer == Err(Error.InvalidContext)
            else if (caller, procedure) !in r.policy then answer == Err(EdgeNotAllowed)
            else if exists input :: Asks(r, caller, context, procedure, input) then
              forall input :: Asks(r, caller, context, procedure, input) ==>
                match r.tokens(input)
                case Ok(issued) =>
                  answer == Ok(Reissued(issued, r.policy[(caller, procedure)],
                                        if context.None? then OriginNewMachine
                                        else if IsUserOrigin(context.value) then OriginUser
                                        else OriginMachineChain))
                case Err(ContextExpired) => answer == Err(Error.InvalidContext)
                case Err(IssuerFailed) => answer == Err(Error.IssueFailed)
            else if context.None? then answer == Err(ContextRequired)
            else if IsUserOrigin(context.value) || context.value.tokenUse == SERVICE then answer == Err(EdgeNotAllowed)
            else answer == Err(Error.InvalidContext)
  {
    if (caller, procedure) in r.policy {
      LookupFindsAnEdge(edges, r.entries, r.policy, caller, procedure);
      var plan, context := PlanOf(r, Request(caller, procedure, raw)), ContextOf(r, caller, raw);
      assert plan.Ok? ==> Asks(r, caller, context, procedure, plan.value.input);
    }
  }

  /** With a policy built over the table, a permitted edge always leads to a registered procedure. */
  lemma UnknownProcedureIsUnreachable(r: Reissuer, edges: seq<Edge>, request: Request)
    requires EdgesOk(edges, r.entries) && HoldsEdges(r.policy, edges)
    ensures Reissue(r, request) != Err(Error.UnknownProcedure)
  {
    if (request.caller, request.procedure) in r.policy {
      LookupFindsAnEdge(edges, r.entries, r.policy, request.caller, request.procedure);
    }
  }

  /**
   No request is admitted by both listeners unless it carries just one bearer token, and that token passes both
   the external verifier and, presented by the service it names, the context verifier.
   */
  lemma AdmittedByBothListeners(a: Authenticator, issuer: Option<EntryIssuer>, header: Header, entry: Entry,
                                r: Reissuer, audiences: Audiences, entry': Entry)
    requires PublicAdmit(a, issuer, header, entry).Ok? && ServiceAdmit(r, audiences, header, entry').Ok?
    ensures exists raw, caller :: CarriesOnlyBearer(header, raw)
              && a.verifier.Some? && (a.verifier.value)(raw).Ok?
              && audiences(raw) == Some([caller]) && r.contexts(raw, caller).Some?
  {
    HeaderCases(header);
    PublicAdmitsExactly(a, issuer, header, entry);
    assert PublicAdmit(a, issuer, header, entry) != Ok(None);
    var raw := BearerToken(header[AUTHORIZATION]).value;
    var caller := audiences(raw).value[0];
    assert ServiceCall(audiences, header) == Ok(ServiceCredential(caller, raw));
    assert audiences(raw).value == [caller];
    assert CarriesOnlyBearer(header, raw);
    BearerIsNotEmpty(header, raw);
  }

  /** A bearer token is a word, so it is never empty. */
  lemma BearerIsNotEmpty(header: Header, raw: string)
    requires AUTHORIZATION in header && BearerToken(header[AUTHORIZATION]) == Some(raw)
    ensures raw != ""
  {
    Text.FieldsAreWords(header[AUTHORIZATION][0]);
  }
}
