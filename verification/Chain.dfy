/**
 The life of internal tokens: every token the gateway issues, on either listener, over any run.

 Two things come from outside: the issuer and the context verifier. Of the issuer this model assumes what
 docs/internal_jwt.md:66-92 writes down; of the verifier that it only accepts a token the gateway issued,
 presented by the service the token is addressed to.
 */
module Chain {
  import opened Common
  import opened Registry
  import opened EdgePolicy
  import opened Authn
  import opened Reissuing
  import Text

  /** One issued token: its claims, the token it was reissued from, and the procedure it was issued for. */
  datatype Minted = Minted(claims: Claims, parent: Option<string>, procedure: string)

  type Tokens = map<string, Minted>

  datatype Gateway = Gateway(entries: Entries, policy: EdgePolicy.Policy)

  // ----- The contracts of the libraries -----

  ghost predicate FreshIn(tokens: Tokens, issued: Issued) {
    && issued.token != "" && issued.token !in tokens
    && issued.claims.jti != "" && issued.claims.txn != ""
    && forall t :: t in tokens ==> tokens[t].claims.jti != issued.claims.jti
  }

  ghost predicate NewTxn(tokens: Tokens, c: Claims) {
    forall t :: t in tokens ==> tokens[t].claims.txn != c.txn
  }

  /** An entry token carries the external token's claims to the destination. */
  ghost predicate EntryContract(tokens: Tokens, input: ExternalInput, issued: Issued) {
    var c, e := issued.claims, input.token;
    && FreshIn(tokens, issued) && NewTxn(tokens, c)
    && c == Claims(e.subject, input.audience, c.jti, c.txn, e.tokenUse, e.clientID, e.scope, e.jti, "", e.tenantID, e.eventID)
  }

  /** A service token names the caller; a user's context is handed on, a machine's leaves only its txn. */
  ghost predicate ServiceContract(tokens: Tokens, input: ServiceInput, issued: Issued) {
    var c := issued.claims;
    && FreshIn(tokens, issued)
    && match input
       case UserOriginService(audience, caller, context) =>
         c == Claims(caller, audience, c.jti, context.txn, SERVICE, caller, context.scope, context.jti,
                     if context.originSub != "" then context.originSub else context.sub, context.tenantID, context.eventID)
       case MachineOriginService(audience, caller, chained) =>
         && c == Claims(caller, audience, c.jti, c.txn, SERVICE, caller, "", "", "", "", "")
         && if chained.Some? then c.txn == chained.value.txn else NewTxn(tokens, c)
  }

  /** A verified context is the claims of an issued token, presented by its audience. */
  ghost predicate VerifierContract(tokens: Tokens, contexts: ContextVerifier) {
    forall t, presenter :: contexts(t, presenter).Some? ==>
      t in tokens && contexts(t, presenter).value == tokens[t].claims && tokens[t].claims.aud == presenter
  }

  /** External tokens are only verified with a subject and an external token use. */
  ghost predicate ExternalContract(a: Authenticator) {
    a.verifier.Some? ==> forall t :: (a.verifier.value)(t).Ok? ==>
      var e := (a.verifier.value)(t).value;
      e.subject != "" && e.tokenUse in [TENANT_ACCESS, EVENT_ACCESS, REGISTRATION]
  }

  // ----- Steps and runs -----

  datatype Step =
    | Public(header: Header, path: string, authenticator: Authenticator, issued: Issued)
    | Internal(header: Header, path: string, audiences: Audiences, contexts: ContextVerifier, issued: Issued)

  /** The reissuer of a step whose issuer answers with this token. */
  function ReissuerOf(g: Gateway, contexts: ContextVerifier, issued: Issued): Reissuer {
    Reissuer(g.entries, g.policy, contexts, (input: ServiceInput) => Ok(issued))
  }

  function RequestOf(audiences: Audiences, header: Header, path: string): Request {
    match ServiceCall(audiences, header)
    case Err(_) => Request("", path, "")
    case Ok(credential) => Request(credential.caller, path, credential.contextToken)
  }

  /** A request is classified by its path, admitted by its listener, and answered by the issuer within its contract. */
  ghost predicate Enabled(g: Gateway, tokens: Tokens, step: Step) {
    match step
    case Public(header, path, a, issued) =>
      && path in g.entries && ExternalContract(a)
      && PublicAdmit(a, Some((input: ExternalInput) => Some(issued.token)), header, g.entries[path]) == Ok(Some(issued.token))
      && EntryContract(tokens, ExternalInput(g.entries[path].destination, Authenticate(a, header, g.entries[path]).external.value), issued)
    case Internal(header, path, audiences, contexts, issued) =>
      && path in g.entries && g.entries[path].procedure == path && VerifierContract(tokens, contexts)
      && var r := ReissuerOf(g, contexts, issued);
         && ServiceAdmit(r, audiences, header, g.entries[path]).Ok?
         && ServiceContract(tokens, PlanOf(r, RequestOf(audiences, header, path)).value.input, issued)
  }

  /** Every admitted request adds its token; the context token of a service call is its parent. */
  ghost function Apply(g: Gateway, tokens: Tokens, step: Step): Tokens
    requires Enabled(g, tokens, step)
  {
    match step
    case Public(_, path, _, issued) => tokens[issued.token := Minted(issued.claims, None, path)]
    case Internal(header, path, audiences, _, issued) =>
      var context := RequestOf(audiences, header, path).contextToken;
      tokens[issued.token := Minted(issued.claims, if context == "" then None else Some(context), path)]
  }

  ghost predicate IsRun(g: Gateway, states: seq<Tokens>, steps: seq<Step>) {
    && |states| == |steps| + 1 && states[0] == map[]
    && forall i :: 0 <= i < |steps| ==> Enabled(g, states[i], steps[i]) && states[i + 1] == Apply(g, states[i], steps[i])
  }

  // ----- What holds of every issued token -----

  /** The claims of an entry token of a user. */
  predicate EntryClaims(c: Claims) {
    c.tokenUse in [TENANT_ACCESS, EVENT_ACCESS, REGISTRATION] && c.sub != "" && c.originSub == ""
  }

  /** The claims of a service token in a chain that no user started: nothing of a user's is in it. */
  predicate MachineClaims(c: Claims) {
    c.tokenUse == SERVICE && c.scope == "" && c.srcJti == "" && c.originSub == "" && c.tenantID == "" && c.eventID == ""
  }

  /** The user a chain started with. */
  function OriginUserOf(c: Claims): string {
    if c.originSub != "" then c.originSub else c.sub
  }

  /** A service token was issued along an edge of the policy, to its caller, for the destination of its procedure. */
  ghost predicate AlongEdge(g: Gateway, m: Minted) {
    && m.procedure in g.entries && (m.claims.sub, m.procedure) in g.policy
    && m.claims.aud == g.entries[m.procedure].destination
    && m.claims.clientID == m.claims.sub && m.claims.tokenUse == SERVICE
  }

  /** A token reissued from a context: the next hop of the chain the context belongs to. */
  ghost predicate NextHop(g: Gateway, context: Claims, m: Minted) {
    && AlongEdge(g, m)
    && m.claims.sub == context.aud && m.claims.txn == context.txn
    && var edge := g.policy[(m.claims.sub, m.procedure)];
       if IsUserOrigin(context) then
         && context.tokenUse in edge.userOriginTokenUses
         && m.claims.scope == context.scope && m.claims.tenantID == context.tenantID && m.claims.eventID == context.eventID
         && m.claims.originSub == OriginUserOf(context) && m.claims.originSub != "" && m.claims.srcJti == context.jti
       else edge.machineChain && MachineClaims(context) && MachineClaims(m.claims)
  }

  ghost predicate MintedOk(g: Gateway, tokens: Tokens, t: string)
    requires t in tokens
  {
    var m := tokens[t];
    match m.parent
    case Some(p) => p in tokens && NextHop(g, tokens[p].claims, m)
    case None =>
      || (EntryClaims(m.claims) && m.procedure in g.entries && m.claims.aud == g.entries[m.procedure].destination)
      || (AlongEdge(g, m) && MachineClaims(m.claims) && g.policy[(m.claims.sub, m.procedure)].newMachineOrigin)
  }

  /** The token starts a chain. */
  predicate IsRoot(tokens: Tokens, t: string) {
    t in tokens && tokens[t].parent.None?
  }

  /** No two tokens share a jti, and no two chains share a txn. */
  ghost predicate Identified(tokens: Tokens) {
    && (forall t, t' :: t in tokens && t' in tokens && tokens[t].claims.jti == tokens[t'].claims.jti ==> t == t')
    && (forall t, t' :: IsRoot(tokens, t) && IsRoot(tokens, t') && tokens[t].claims.txn == tokens[t'].claims.txn ==> t == t')
  }

  ghost predicate Inv(g: Gateway, tokens: Tokens) {
    Identified(tokens) && forall t :: t in tokens ==> MintedOk(g, tokens, t)
  }

  /** Every token belongs to exactly one of the three kinds. */
  lemma KindsOfToken(g: Gateway, tokens: Tokens, t: string)
    requires Inv(g, tokens) && t in tokens
    ensures var c := tokens[t].claims;
            if IsUserOrigin(c) then OriginUserOf(c) != "" && (EntryClaims(c) || c.originSub != "") else MachineClaims(c)
  {
    assert MintedOk(g, tokens, t);
    UsesDiffer();
  }

  lemma UsesDiffer()
    ensures SERVICE !in [TENANT_ACCESS, EVENT_ACCESS, REGISTRATION]
  {
    assert SERVICE[0] == 's' && TENANT_ACCESS[0] == 't' && EVENT_ACCESS[0] == 'e' && REGISTRATION[0] == 'r';
  }

  /** A fresh token keeps jtis and the txns of chains apart. */
  lemma MintingIdentifies(tokens: Tokens, issued: Issued, m: Minted)
    requires Identified(tokens) && FreshIn(tokens, issued) && m.claims == issued.claims
    requires m.parent.None? ==> NewTxn(tokens, m.claims)
    ensures Identified(tokens[issued.token := m])
  {
  }

  lemma MintedStays(g: Gateway, tokens: Tokens, t: string, issued: string, m: Minted)
    requires t in tokens && MintedOk(g, tokens, t) && issued !in tokens
    ensures MintedOk(g, tokens[issued := m], t)
  {
  }

  /** A fresh token of one of the kinds keeps the invariant. */
  lemma MintingKeeps(g: Gateway, tokens: Tokens, issued: Issued, m: Minted)
    requires Inv(g, tokens) && FreshIn(tokens, issued) && m.claims == issued.claims
    requires m.parent.None? ==> NewTxn(tokens, m.claims)
    requires MintedOk(g, tokens[issued.token := m], issued.token)
    ensures Inv(g, tokens[issued.token := m])
  {
    MintingIdentifies(tokens, issued, m);
    forall t | t in tokens ensures MintedOk(g, tokens[issued.token := m], t) {
      MintedStays(g, tokens, t, issued.token, m);
    }
  }

  lemma PublicKeeps(g: Gateway, tokens: Tokens, step: Step)
    requires Inv(g, tokens) && step.Public? && Enabled(g, tokens, step)
    ensures Inv(g, Apply(g, tokens, step))
  {
    var external := Authenticate(step.authenticator, step.header, g.entries[step.path]).external.value;
    assert exists raw :: (step.authenticator.verifier.value)(raw) == Ok(external) by {
      assert (step.authenticator.verifier.value)(BearerToken(step.header[AUTHORIZATION]).value) == Ok(external);
    }
    assert EntryClaims(step.issued.claims);
    MintingKeeps(g, tokens, step.issued, Minted(step.issued.claims, None, step.path));
  }

  /** What an admitted service call was planned as. */
  lemma AdmittedPlan(g: Gateway, tokens: Tokens, step: Step)
    requires step.Internal? && Enabled(g, tokens, step)
    ensures var request := RequestOf(step.audiences, step.header, step.path);
            && PlanOf(ReissuerOf(g, step.contexts, step.issued), request).Ok?
            && (request.caller, step.path) in g.policy
            && (request.contextToken != "" ==>
                  && request.contextToken in tokens && tokens[request.contextToken].claims.aud == request.caller
                  && step.contexts(request.contextToken, request.caller) == Some(tokens[request.contextToken].claims))
  {
    var r := ReissuerOf(g, step.contexts, step.issued);
    var request := RequestOf(step.audiences, step.header, step.path);
    assert Reissue(r, request).Ok?;
  }

  lemma InternalMints(g: Gateway, tokens: Tokens, step: Step)
    requires Inv(g, tokens) && step.Internal? && Enabled(g, tokens, step)
    ensures var m := Apply(g, tokens, step)[step.issued.token];
            match m.parent
            case Some(p) => p in tokens && NextHop(g, tokens[p].claims, m)
            case None => AlongEdge(g, m) && MachineClaims(m.claims) && g.policy[(m.claims.sub, m.procedure)].newMachineOrigin
  {
    AdmittedPlan(g, tokens, step);
    var request := RequestOf(step.audiences, step.header, step.path);
    if request.contextToken != "" {
      KindsOfToken(g, tokens, request.contextToken);
    }
  }

  lemma InternalKeeps(g: Gateway, tokens: Tokens, step: Step)
    requires Inv(g, tokens) && step.Internal? && Enabled(g, tokens, step)
    ensures Inv(g, Apply(g, tokens, step))
  {
    InternalMints(g, tokens, step);
    InternalIsFresh(g, tokens, step);
    MintingKeeps(g, tokens, step.issued, Apply(g, tokens, step)[step.issued.token]);
  }

  lemma InternalIsFresh(g: Gateway, tokens: Tokens, step: Step)
    requires step.Internal? && Enabled(g, tokens, step)
    ensures FreshIn(tokens, step.issued)
    ensures RequestOf(step.audiences, step.header, step.path).contextToken == "" ==> NewTxn(tokens, step.issued.claims)
  {
    AdmittedPlan(g, tokens, step);
  }

  lemma StepKeeps(g: Gateway, tokens: Tokens, step: Step)
    requires Inv(g, tokens) && Enabled(g, tokens, step)
    ensures Inv(g, Apply(g, tokens, step))
  {
    if step.Public? {
      PublicKeeps(g, tokens, step);
    } else {
      InternalKeeps(g, tokens, step);
    }
  }

  lemma {:induction false} RunKeeps(g: Gateway, states: seq<Tokens>, steps: seq<Step>, i: nat)
    requires IsRun(g, states, steps) && i < |states|
    ensures Inv(g, states[i])
  {
    if i > 0 {
      RunKeeps(g, states, steps, i - 1);
      StepKeeps(g, states[i - 1], steps[i - 1]);
    }
  }

  // ----- Whole chains, of any length -----

  /** Tokens each reissued from the one before, from an entry token or a new machine origin on. */
  ghost predicate IsChain(tokens: Tokens, ts: seq<string>) {
    && |ts| > 0
    && (forall i :: 0 <= i < |ts| ==> ts[i] in tokens)
    && tokens[ts[0]].parent == None
    && forall i :: 0 < i < |ts| ==> tokens[ts[i]].parent == Some(ts[i - 1])
  }

  /** One new token, reissued from an older one if from any. */
  ghost predicate AddsToken(tokens: Tokens, after: Tokens, t: string, m: Minted) {
    t !in tokens && after == tokens[t := m] && (m.parent.Some? ==> m.parent.value in tokens)
  }

  ghost predicate Grows(tokens: Tokens, after: Tokens) {
    exists t, m :: AddsToken(tokens, after, t, m)
  }

  ghost predicate Growing(states: seq<Tokens>) {
    && |states| > 0 && states[0] == map[]
    && forall i :: 0 < i < |states| ==> Grows(states[i - 1], states[i])
  }

  lemma RunsGrow(g: Gateway, states: seq<Tokens>, steps: seq<Step>)
    requires IsRun(g, states, steps)
    ensures Growing(states)
  {
    forall i | 0 < i < |states| ensures Grows(states[i - 1], states[i]) {
      var step := steps[i - 1];
      assert Enabled(g, states[i - 1], step) && states[i - 1 + 1] == Apply(g, states[i - 1], step);
      if step.Internal? {
        AdmittedPlan(g, states[i - 1], step);
      }
      assert AddsToken(states[i - 1], states[i], step.issued.token, states[i][step.issued.token]);
    }
  }

  lemma ChainStays(tokens: Tokens, t: string, m: Minted, ts: seq<string>)
    requires IsChain(tokens, ts) && t !in tokens
    ensures IsChain(tokens[t := m], ts)
    ensures m.parent == Some(ts[|ts| - 1]) ==> IsChain(tokens[t := m], ts + [t])
  {
    assert forall i :: 0 <= i < |ts| ==> ts[i] != t && (ts + [t])[i] == ts[i];
  }

  lemma {:induction false} ChainToToken(states: seq<Tokens>, i: nat, t: string) returns (ts: seq<string>)
    requires Growing(states) && i < |states| && t in states[i]
    ensures IsChain(states[i], ts) && ts[|ts| - 1] == t
  {
    if i > 0 {
      var issued, m :| AddsToken(states[i - 1], states[i], issued, m);
      if t == issued && m.parent.None? {
        return [t];
      }
      ts := ChainToToken(states, i - 1, if t == issued then m.parent.value else t);
      ChainStays(states[i - 1], issued, m, ts);
      if t == issued {
        ts := ts + [t];
      }
    }
  }

  /** Every token issued in a run ends such a chain. */
  lemma EveryTokenEndsAChain(g: Gateway, states: seq<Tokens>, steps: seq<Step>, n: nat, t: string) returns (ts: seq<string>)
    requires IsRun(g, states, steps) && n < |states| && t in states[n]
    ensures IsChain(states[n], ts) && ts[|ts| - 1] == t
  {
    RunsGrow(g, states, steps);
    ts := ChainToToken(states, n, t);
  }

  /**
   Along a chain of any length: each reissued token is issued to the service its context token is addressed to,
   along an edge of the policy that never leads back to that service; the txn stays the same; a user's chain
   keeps its scope, tenant, event and origin user; and a machine's chain never gains any of them.
   */
  lemma {:induction false} AlongTheChain(g: Gateway, edges: seq<Edge>, tokens: Tokens, ts: seq<string>, i: nat)
    requires EdgesOk(edges, g.entries) && HoldsEdges(g.policy, edges)
    requires Inv(g, tokens) && IsChain(tokens, ts) && i < |ts|
    ensures var root, m := tokens[ts[0]].claims, tokens[ts[i]];
            && (i > 0 ==>
                  && AlongEdge(g, m) && NextHop(g, tokens[ts[i - 1]].claims, m)
                  && m.claims.sub == tokens[ts[i - 1]].claims.aud && m.claims.sub != m.claims.aud)
            && m.claims.txn == root.txn
            && if IsUserOrigin(root) then
                 && IsUserOrigin(m.claims)
                 && m.claims.scope == root.scope && m.claims.tenantID == root.tenantID && m.claims.eventID == root.eventID
                 && OriginUserOf(m.claims) == root.sub && (i > 0 ==> m.claims.originSub == root.sub)
               else MachineClaims(m.claims)
  {
    assert MintedOk(g, tokens, ts[i]);
    KindsOfToken(g, tokens, ts[i]);
    UsesDiffer();
    if i > 0 {
      AlongTheChain(g, edges, tokens, ts, i - 1);
      var m := tokens[ts[i]];
      LookupFindsAnEdge(edges, g.entries, g.policy, m.claims.sub, m.procedure);
    }
  }

  /** The same holds in every run. */
  lemma ChainsInRuns(g: Gateway, edges: seq<Edge>, states: seq<Tokens>, steps: seq<Step>, n: nat, ts: seq<string>, i: nat)
    requires EdgesOk(edges, g.entries) && HoldsEdges(g.policy, edges)
    requires IsRun(g, states, steps) && n < |states| && IsChain(states[n], ts) && 0 < i < |ts|
    ensures var root, context, m := states[n][ts[0]].claims, states[n][ts[i - 1]].claims, states[n][ts[i]];
            && m.claims.sub == context.aud && (context.aud, m.procedure) in g.policy && m.claims.aud != context.aud
            && m.claims.txn == root.txn
            && (EntryClaims(root) ==>
                  && m.claims.scope == root.scope && m.claims.tenantID == root.tenantID && m.claims.eventID == root.eventID
                  && m.claims.originSub == root.sub)
            && (!EntryClaims(root) ==> MachineClaims(m.claims))
  {
    RunKeeps(g, states, steps, n);
    AlongTheChain(g, edges, states[n], ts, i);
    assert MintedOk(g, states[n], ts[0]);
    UsesDiffer();
  }

  /** Two tokens carry the same txn exactly when their chains have the same root. */
  lemma TxnNamesTheChain(g: Gateway, edges: seq<Edge>, states: seq<Tokens>, steps: seq<Step>, n: nat, ts: seq<string>, us: seq<string>)
    requires EdgesOk(edges, g.entries) && HoldsEdges(g.policy, edges)
    requires IsRun(g, states, steps) && n < |states| && IsChain(states[n], ts) && IsChain(states[n], us)
    ensures states[n][ts[|ts| - 1]].claims.txn == states[n][us[|us| - 1]].claims.txn <==> ts[0] == us[0]
  {
    RunKeeps(g, states, steps, n);
    AlongTheChain(g, edges, states[n], ts, |ts| - 1);
    AlongTheChain(g, edges, states[n], us, |us| - 1);
  }

  // ----- How long chains can get under a policy -----

  /** What of a context token decides which edges may use it, besides the service it is addressed to. */
  datatype Class = User(tokenUse: string) | Machine

  function ClassOf(c: Claims): Class {
    if IsUserOrigin(c) then User(c.tokenUse) else Machine
  }

  type Rank = (string, Class) -> nat

  function RankOf(rank: Rank, c: Claims): nat {
    rank(c.aud, ClassOf(c))
  }

  /** Whatever context the edge accepts, the token it leads to ranks below. */
  ghost predicate FallsAlong(rank: Rank, e: Edge, destination: string) {
    && (forall n :: 0 <= n < |e.userOriginTokenUses| ==>
          rank(destination, User(SERVICE)) < rank(e.caller, User(e.userOriginTokenUses[n])))
    && (e.machineChain ==> rank(destination, Machine) < rank(e.caller, Machine))
  }

  ghost predicate Falls(rank: Rank, edges: seq<Edge>, entries: Entries) {
    forall i :: 0 <= i < |edges| && edges[i].procedure in entries ==>
      FallsAlong(rank, edges[i], entries[edges[i].procedure].destination)
  }

  /** How many tokens of a chain were issued to a service. */
  function Reissues(tokens: Tokens, ts: seq<string>): nat
    requires forall i :: 0 <= i < |ts| ==> ts[i] in tokens
  {
    if ts == [] then 0
    else Reissues(tokens, ts[..|ts| - 1]) + (if tokens[ts[|ts| - 1]].claims.tokenUse == SERVICE then 1 else 0)
  }

  lemma {:induction false} ReissuesAtMostLength(tokens: Tokens, ts: seq<string>)
    requires forall i :: 0 <= i < |ts| ==> ts[i] in tokens
    ensures Reissues(tokens, ts) <= |ts|
    ensures ts != [] && tokens[ts[0]].claims.tokenUse != SERVICE ==> Reissues(tokens, ts) <= |ts| - 1
  {
    if ts != [] {
      ReissuesAtMostLength(tokens, ts[..|ts| - 1]);
    }
  }

  lemma HopOfChain(g: Gateway, tokens: Tokens, ts: seq<string>, i: nat)
    requires Inv(g, tokens) && IsChain(tokens, ts) && 0 < i < |ts|
    ensures NextHop(g, tokens[ts[i - 1]].claims, tokens[ts[i]])
  {
    assert MintedOk(g, tokens, ts[i]);
  }

  /** A hop ends below the context it started from. */
  lemma HopFalls(g: Gateway, edges: seq<Edge>, rank: Rank, context: Claims, m: Minted)
    requires EdgesOk(edges, g.entries) && HoldsEdges(g.policy, edges) && Falls(rank, edges, g.entries)
    requires NextHop(g, context, m)
    ensures RankOf(rank, m.claims) < RankOf(rank, context)
  {
    LookupFindsAnEdge(edges, g.entries, g.policy, m.claims.sub, m.procedure);
    UsesDiffer();
    var i :| 0 <= i < |edges| && edges[i] == g.policy[(m.claims.sub, m.procedure)];
    assert FallsAlong(rank, edges[i], m.claims.aud);
  }

  lemma {:induction false} ChainFalls(g: Gateway, edges: seq<Edge>, rank: Rank, tokens: Tokens, ts: seq<string>, i: nat)
    requires EdgesOk(edges, g.entries) && HoldsEdges(g.policy, edges) && Falls(rank, edges, g.entries)
    requires Inv(g, tokens) && IsChain(tokens, ts) && i < |ts|
    ensures RankOf(rank, tokens[ts[i]].claims) + i <= RankOf(rank, tokens[ts[0]].claims)
  {
    if i > 0 {
      ChainFalls(g, edges, rank, tokens, ts, i - 1);
      HopOfChain(g, tokens, ts, i);
      HopFalls(g, edges, rank, tokens[ts[i - 1]].claims, tokens[ts[i]]);
    }
  }

  /**
   For any rank of contexts that falls along every edge of the policy, a chain has at most one token more than its
   root ranks, and a user's chain at most that many service tokens.
   */
  lemma ChainsAreRanked(g: Gateway, edges: seq<Edge>, rank: Rank, tokens: Tokens, ts: seq<string>)
    requires EdgesOk(edges, g.entries) && HoldsEdges(g.policy, edges) && Falls(rank, edges, g.entries)
    requires Inv(g, tokens) && IsChain(tokens, ts)
    ensures var root := tokens[ts[0]].claims;
            && |ts| <= RankOf(rank, root) + 1
            && Reissues(tokens, ts) <= RankOf(rank, root) + if EntryClaims(root) then 0 else 1
  {
    ChainFalls(g, edges, rank, tokens, ts, |ts| - 1);
    ReissuesAtMostLength(tokens, ts);
    UsesDiffer();
  }

  // ----- Chains do happen -----

  lemma {:induction false} TwoFields(first: string, second: string)
    requires Text.IsWord(first) && Text.IsWord(second)
    ensures Text.Fields(first + " " + second) == [first, second]
  {
    Text.FieldsOfJoin([first, second]);
    assert Text.Join([first, second][1..], ' ') == second;
    assert Text.Join([first, second], ' ') == first + " " + second;
  }

  /** The claims of a service token that no user stands behind. */
  function MachineToken(caller: string, audience: string, jti: string, txn: string): Claims {
    Claims(caller, audience, jti, txn, SERVICE, caller, "", "", "", "", "")
  }

  /** The policy has an edge from this service to this registered procedure. */
  predicate Permits(g: Gateway, caller: string, p: string) {
    caller != "" && p != "" && p in g.entries && g.entries[p].procedure == p && (caller, p) in g.policy
  }

  /** A service may start a chain along an edge that says so: it is admitted and its token issued. */
  lemma NewMachineIsAdmitted(g: Gateway, tokens: Tokens, caller: string, p: string, issued: Issued) returns (step: Step)
    requires Permits(g, caller, p) && g.policy[(caller, p)].newMachineOrigin
    requires FreshIn(tokens, issued) && NewTxn(tokens, issued.claims)
    requires issued.claims == MachineToken(caller, g.entries[p].destination, issued.claims.jti, issued.claims.txn)
    ensures Enabled(g, tokens, step)
    ensures Apply(g, tokens, step) == tokens[issued.token := Minted(issued.claims, None, p)]
  {
    HeadersDiffer();
    assert DPOP[0] == 'D' && CALLER_SERVICE[0] == 'T';
    var header := map[CALLER_SERVICE := [caller]];
    var audiences: Audiences := (raw: string) => None;
    assert ServiceCall(audiences, header) == Ok(ServiceCredential(caller, ""));
    step := Step.Internal(header, p, audiences, (raw: string, presenter: string) => None, issued);
  }

  /** A service that presents the machine's token addressed to it may go on along an edge that says so. */
  lemma MachineContinues(g: Gateway, tokens: Tokens, t: string, p: string, issued: Issued) returns (step: Step)
    requires t in tokens && Text.IsWord(t) && MachineClaims(tokens[t].claims)
    requires Permits(g, tokens[t].claims.aud, p) && g.policy[(tokens[t].claims.aud, p)].machineChain
    requires FreshIn(tokens, issued)
    requires issued.claims == MachineToken(tokens[t].claims.aud, g.entries[p].destination, issued.claims.jti, tokens[t].claims.txn)
    ensures Enabled(g, tokens, step)
    ensures Apply(g, tokens, step) == tokens[issued.token := Minted(issued.claims, Some(t), p)]
  {
    var context := tokens[t].claims;
    var header := map[AUTHORIZATION := ["Bearer " + t]];
    var audiences: Audiences := (raw: string) => Some([context.aud]);
    BearerOf(t);
    CallerFromContext(audiences, header, t, context.aud);
    UsesDiffer();
    step := Step.Internal(header, p, audiences,
                     (raw: string, presenter: string) => if raw == t && presenter == context.aud then Some(context) else None, issued);
  }

  lemma BearerOf(t: string)
    requires Text.IsWord(t)
    ensures BearerToken(["Bearer " + t]) == Some(t)
  {
    assert Text.IsWord("Bearer");
    TwoFields("Bearer", t);
    assert "Bearer" + " " + t == "Bearer " + t;
    assert IsBearer("Bearer");
  }

  lemma CallerFromContext(audiences: Audiences, header: Header, t: string, caller: string)
    requires header.Keys == {AUTHORIZATION} && BearerToken(header[AUTHORIZATION]) == Some(t)
    requires audiences(t) == Some([caller]) && caller != ""
    ensures ServiceCall(audiences, header) == Ok(ServiceCredential(caller, t))
  {
    HeadersDiffer();
  }

  /** Two edges that follow each other, the first for new machines, the second for machine chains, make a chain of two. */
  lemma TwoHops(g: Gateway, caller: string, p: string, q: string) returns (states: seq<Tokens>, steps: seq<Step>, ts: seq<string>)
    requires Permits(g, caller, p) && g.policy[(caller, p)].newMachineOrigin
    requires Permits(g, g.entries[p].destination, q) && g.policy[(g.entries[p].destination, q)].machineChain
    ensures IsRun(g, states, steps) && |states| == 3
    ensures IsChain(states[2], ts) && !EntryClaims(states[2][ts[0]].claims) && Reissues(states[2], ts) == 2
  {
    var one, two, start, next := TwoAdmissions(g, caller, p, q);
    states, steps, ts := [map[], one, two], [start, next], ["first", "second"];
    TwoSteps(g, one, two, start, next);
    ChainOfTwo(two, "first", "second");
  }

  /** Both services are admitted, one after the other. */
  lemma TwoAdmissions(g: Gateway, caller: string, p: string, q: string) returns (one: Tokens, two: Tokens, start: Step, next: Step)
    requires Permits(g, caller, p) && g.policy[(caller, p)].newMachineOrigin
    requires Permits(g, g.entries[p].destination, q) && g.policy[(g.entries[p].destination, q)].machineChain
    ensures Enabled(g, map[], start) && one == Apply(g, map[], start)
    ensures Enabled(g, one, next) && two == Apply(g, one, next)
    ensures "first" in two && "second" in two && MachineClaims(two["first"].claims) && MachineClaims(two["second"].claims)
    ensures two["first"].parent == None && two["second"].parent == Some("first")
  {
    var first := MachineToken(caller, g.entries[p].destination, "1", "chain");
    var second := MachineToken(first.aud, g.entries[q].destination, "2", "chain");
    one := map["first" := Minted(first, None, p)];
    two := one["second" := Minted(second, Some("first"), q)];
    start := NewMachineIsAdmitted(g, map[], caller, p, Issued("first", first));
    next := MachineContinues(g, one, "first", q, Issued("second", second));
  }

  lemma ChainOfTwo(tokens: Tokens, t: string, t': string)
    requires t in tokens && t' in tokens && MachineClaims(tokens[t].claims) && MachineClaims(tokens[t'].claims)
    requires tokens[t].parent == None && tokens[t'].parent == Some(t)
    ensures IsChain(tokens, [t, t']) && !EntryClaims(tokens[t].claims) && Reissues(tokens, [t, t']) == 2
  {
    UsesDiffer();
    TwoReissues(tokens, t, t');
  }

  lemma TwoSteps(g: Gateway, one: Tokens, two: Tokens, start: Step, next: Step)
    requires Enabled(g, map[], start) && one == Apply(g, map[], start)
    requires Enabled(g, one, next) && two == Apply(g, one, next)
    ensures IsRun(g, [map[], one, two], [start, next])
  {
    var states, steps := [map[], one, two], [start, next];
    forall i | 0 <= i < |steps| ensures Enabled(g, states[i], steps[i]) && states[i + 1] == Apply(g, states[i], steps[i]) {
      if i == 0 {
        assert states[0] == map[] && steps[0] == start;
      } else {
        assert i == 1 && states[1] == one && steps[1] == next;
      }
    }
  }

  lemma TwoReissues(tokens: Tokens, t: string, t': string)
    requires t in tokens && t' in tokens && tokens[t].claims.tokenUse == SERVICE && tokens[t'].claims.tokenUse == SERVICE
    ensures Reissues(tokens, [t, t']) == 2
  {
    assert [t, t'][..1] == [t] && [t][..0] == [];
    assert Reissues(tokens, [t]) == 1;
  }
}
