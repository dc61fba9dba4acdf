/** The static list of calls one service may make of another (internal/edgepolicy/edgepolicy.go). */
module EdgePolicy {
  import opened Common
  import opened Registry

  datatype Edge = Edge(caller: string, procedure: string, userOriginTokenUses: seq<string>,
                       machineChain: bool, newMachineOrigin: bool)

  type Key = (string, string)
  type Policy = map<Key, Edge>

  datatype Error = InvalidEdge | DuplicateEdge | UnknownProcedure | ProcedureNotService | SelfEdge | InvalidTokenUse | NoAcceptedOrigin

  function KeyOf(e: Edge): Key {
    (e.caller, e.procedure)
  }

  ghost predicate TokenUsesOk(uses: seq<string>) {
    Distinct(uses) && forall i :: 0 <= i < |uses| ==> IsKnownTokenUse(uses[i])
  }

  /** An edge that can be enforced against the table of procedures. */
  ghost predicate EdgeOk(e: Edge, entries: Entries) {
    && e.caller != "" && e.procedure != ""
    && e.procedure in entries && entries[e.procedure].service
    && e.caller != entries[e.procedure].destination
    && TokenUsesOk(e.userOriginTokenUses)
    && (e.userOriginTokenUses != [] || e.machineChain || e.newMachineOrigin)
  }

  ghost predicate EdgesOk(edges: seq<Edge>, entries: Entries) {
    && (forall i :: 0 <= i < |edges| ==> EdgeOk(edges[i], entries))
    && forall i, j :: 0 <= i < j < |edges| ==> KeyOf(edges[i]) != KeyOf(edges[j])
  }

  /** The policy holds every edge under its caller and procedure, and nothing else. */
  ghost predicate HoldsEdges(policy: Policy, edges: seq<Edge>) {
    && (forall i :: 0 <= i < |edges| ==> KeyOf(edges[i]) in policy && policy[KeyOf(edges[i])] == edges[i])
    && forall k :: k in policy ==> exists i :: 0 <= i < |edges| && KeyOf(edges[i]) == k
  }

  method CheckTokenUses(uses: seq<string>) returns (ok: bool)
    ensures ok <==> TokenUsesOk(uses)
  {
    var seen: set<string> := {};
    for i := 0 to |uses|
      invariant seen == Elements(uses[..i]) && Distinct(uses[..i])
      invariant forall j :: 0 <= j < i ==> IsKnownTokenUse(uses[j])
    {
      assert uses[..i + 1] == uses[..i] + [uses[i]];
      if !IsKnownTokenUse(uses[i]) {
        return false;
      }
      if uses[i] in seen {
        RepeatedUse(uses, i);
        return false;
      }
      seen := seen + {uses[i]};
    }
    assert uses[..|uses|] == uses;
    return true;
  }

  method CheckEdge(e: Edge, entries: Entries, seen: set<Key>) returns (err: Option<Error>)
    ensures err.None? <==> EdgeOk(e, entries) && KeyOf(e) !in seen
  {
    if e.caller == "" || e.procedure == "" {
      return Some(InvalidEdge);
    }
    if KeyOf(e) in seen {
      return Some(DuplicateEdge);
    }
    if e.procedure !in entries {
      return Some(UnknownProcedure);
    }
    if !entries[e.procedure].service {
      return Some(ProcedureNotService);
    }
    if e.caller == entries[e.procedure].destination {
      return Some(SelfEdge);
    }
    var known := CheckTokenUses(e.userOriginTokenUses);
    if !known {
      return Some(InvalidTokenUse);
    }
    if |e.userOriginTokenUses| == 0 && !e.machineChain && !e.newMachineOrigin {
      return Some(NoAcceptedOrigin);
    }
    return None;
  }

  method Build(edges: seq<Edge>, entries: Entries) returns (built: Result<Policy, seq<Error>>)
    ensures built.Ok? <==> EdgesOk(edges, entries)
    ensures built.Ok? ==> HoldsEdges(built.value, edges)
  {
    var policy: Policy := map[];
    var seen: set<Key> := {};
    var errs: seq<Error> := [];
    for i := 0 to |edges|
      invariant errs == [] <==> EdgesOk(edges[..i], entries)
      invariant errs == [] ==> HoldsEdges(policy, edges[..i]) && seen == policy.Keys
    {
      var err := CheckEdge(edges[i], entries, seen);
      EdgesAppended(edges[..i], edges[i], entries, policy);
      assert edges[..i + 1] == edges[..i] + [edges[i]];
      if err.Some? {
        errs := errs + [err.value];
        continue;
      }
      seen := seen + {KeyOf(edges[i])};
      policy := policy[KeyOf(edges[i]) := edges[i]];
    }
    assert edges[..|edges|] == edges;
    if errs != [] {
      return Err(errs);
    }
    return Ok(policy);
  }

  lemma EdgesAppended(edges: seq<Edge>, e: Edge, entries: Entries, policy: Policy)
    ensures EdgesOk(edges + [e], entries) ==> EdgesOk(edges, entries)
    ensures HoldsEdges(policy, edges) ==>
              (EdgesOk(edges + [e], entries) <==> EdgesOk(edges, entries) && EdgeOk(e, entries) && KeyOf(e) !in policy)
    ensures HoldsEdges(policy, edges) && KeyOf(e) !in policy ==> HoldsEdges(policy[KeyOf(e) := e], edges + [e])
  {
    var all := edges + [e];
    assert forall i :: 0 <= i < |edges| ==> all[i] == edges[i];
    assert all[|edges|] == e;
    if HoldsEdges(policy, edges) && KeyOf(e) !in policy {
      var longer := policy[KeyOf(e) := e];
      forall k | k in longer ensures exists i :: 0 <= i < |all| && KeyOf(all[i]) == k {
        if k in policy {
          var i :| 0 <= i < |edges| && KeyOf(edges[i]) == k;
          assert KeyOf(all[i]) == k;
        } else {
          assert KeyOf(all[|edges|]) == k;
        }
      }
    }
  }

  /** What a request finds: an edge is about its caller and procedure, and enforceable against the table. */
  lemma LookupFindsAnEdge(edges: seq<Edge>, entries: Entries, policy: Policy, caller: string, procedure: string)
    requires EdgesOk(edges, entries) && HoldsEdges(policy, edges) && (caller, procedure) in policy
    ensures var e := policy[(caller, procedure)];
            e.caller == caller && e.procedure == procedure && e in edges && EdgeOk(e, entries)
  {
    var i :| 0 <= i < |edges| && KeyOf(edges[i]) == (caller, procedure);
  }
}
