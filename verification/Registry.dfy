/**
 The table of procedures the gateway serves (internal/registry): built once from the bindings, the access
 policies generated from their proto files, the linked descriptors and the overrides.
 */
module Registry {
  import opened Common

  const TENANT_ACCESS := "tenant_access"
  const EVENT_ACCESS := "event_access"
  const REGISTRATION := "registration"
  const SERVICE := "service"

  predicate IsKnownTokenUse(use: string) {
    use in [TENANT_ACCESS, EVENT_ACCESS, SERVICE, REGISTRATION]
  }

  datatype Level = Unspecified | Public | Internal | Authenticated | UnknownLevel(number: int)
  datatype Policy = Policy(level: Level, tokenUses: seq<string>, requiredScopes: seq<string>)
  datatype Binding = Binding(service: string, destination: string, policies: map<string, Policy>)

  datatype Rpc = Rpc(name: string, streamingClient: bool, streamingServer: bool)
  datatype Descriptor = ServiceDescriptor(methods: seq<Rpc>) | OtherDescriptor
  type Resolver = map<string, Descriptor>

  datatype Entry = Entry(procedure: string, destination: string, anonymous: bool, externalTokenUses: seq<string>,
                         service: bool, requiredScopes: seq<string>, introspection: bool)

  type Entries = map<string, Entry>

  datatype Error = InvalidBinding | DuplicateProcedure | NoServiceDescriptor | ProcedureMismatch | StreamingProcedure
    | InvalidPolicy | InvalidOverride

  function ProcedureOf(service: string, rpc: string): string {
    "/" + service + "/" + rpc
  }

  // ----- Who a policy accepts -----

  datatype Subjects = Subjects(anonymous: bool, externalTokenUses: seq<string>, service: bool)

  /** The declared uses other than "service", in order. */
  function External(uses: seq<string>): seq<string> {
    if uses == [] then []
    else External(uses[..|uses| - 1]) + (if uses[|uses| - 1] == SERVICE then [] else [uses[|uses| - 1]])
  }

  ghost predicate ValidTokenUses(uses: seq<string>) {
    && (forall i :: 0 <= i < |uses| ==> IsKnownTokenUse(uses[i]))
    && Distinct(uses)
    && exists i :: 0 <= i < |uses| && uses[i] != SERVICE
  }

  predicate IsServiceOnly(uses: seq<string>) {
    uses == [] || uses == [SERVICE]
  }

  /** The policies that can be enforced: every level has its own rule for the declared uses and scopes. */
  ghost predicate ValidPolicy(p: Policy) {
    match p.level
    case Public => p.tokenUses == [] && p.requiredScopes == []
    case Internal => IsServiceOnly(p.tokenUses)
    case Authenticated => ValidTokenUses(p.tokenUses)
    case Unspecified => false
    case UnknownLevel(_) => false
  }

  function SubjectsOf(p: Policy): Subjects {
    if p.level.Public? then Subjects(true, [], false)
    else if p.level.Internal? then Subjects(false, [], true)
    else Subjects(false, External(p.tokenUses), SERVICE in p.tokenUses)
  }

  method AuthenticatedSubjects(uses: seq<string>) returns (subjects: Option<Subjects>)
    ensures subjects.Some? <==> ValidTokenUses(uses)
    ensures subjects.Some? ==> subjects.value == Subjects(false, External(uses), SERVICE in uses)
  {
    if uses == [] {
      return None;
    }
    var external: seq<string> := [];
    var seen: set<string> := {};
    var acceptsService := false;
    for i := 0 to |uses|
      invariant UsesRead(uses[..i], seen, external, acceptsService)
    {
      assert uses[..i + 1] == uses[..i] + [uses[i]];
      if !IsKnownTokenUse(uses[i]) {
        return None;
      }
      if uses[i] in seen {
        RepeatedUse(uses, i);
        return None;
      }
      UseRead(uses[..i], uses[i], seen, external, acceptsService);
      seen := seen + {uses[i]};
      if uses[i] == SERVICE {
        acceptsService := true;
      } else {
        external := external + [uses[i]];
      }
    }
    assert uses[..|uses|] == uses;
    ExternalUses(uses);
    if external == [] {
      return None;
    }
    return Some(Subjects(false, external, acceptsService));
  }

  /** What the loop knows of the uses it has read. */
  ghost predicate UsesRead(uses: seq<string>, seen: set<string>, external: seq<string>, acceptsService: bool) {
    && seen == Elements(uses) && Distinct(uses)
    && (forall i :: 0 <= i < |uses| ==> IsKnownTokenUse(uses[i]))
    && external == External(uses) && (acceptsService <==> SERVICE in uses)
  }

  lemma UseRead(uses: seq<string>, use: string, seen: set<string>, external: seq<string>, acceptsService: bool)
    requires UsesRead(uses, seen, external, acceptsService) && IsKnownTokenUse(use) && use !in seen
    ensures UsesRead(uses + [use], seen + {use}, if use == SERVICE then external else external + [use],
                     acceptsService || use == SERVICE)
  {
    var longer := uses + [use];
    assert longer[..|longer| - 1] == uses;
    assert forall i :: 0 <= i < |uses| ==> uses[i] in Elements(uses);
  }

  lemma RepeatedUse(uses: seq<string>, i: nat)
    requires i < |uses| && uses[i] in Elements(uses[..i])
    ensures !Distinct(uses)
  {
    var j :| 0 <= j < i && uses[..i][j] == uses[i];
    assert uses[j] == uses[i];
  }

  method DeriveSubjects(p: Policy) returns (subjects: Option<Subjects>)
    ensures subjects.Some? <==> ValidPolicy(p)
    ensures subjects.Some? ==> subjects.value == SubjectsOf(p)
  {
    match p.level {
      case Public =>
        return if |p.tokenUses| > 0 || |p.requiredScopes| > 0 then None else Some(Subjects(true, [], false));
      case Internal =>
        return if IsServiceOnly(p.tokenUses) then Some(Subjects(false, [], true)) else None;
      case Authenticated =>
        subjects := AuthenticatedSubjects(p.tokenUses);
      case Unspecified => return None;
      case UnknownLevel(_) => return None;
    }
  }

  function EntryOf(procedure: string, destination: string, p: Policy): Entry {
    var s := SubjectsOf(p);
    Entry(procedure, destination, s.anonymous, s.externalTokenUses, s.service, p.requiredScopes, false)
  }

  lemma {:induction false} ExternalUses(uses: seq<string>)
    ensures forall u :: u in External(uses) <==> u in uses && u != SERVICE
    ensures Distinct(uses) ==> Distinct(External(uses))
    ensures |External(uses)| > 0 <==> exists i :: 0 <= i < |uses| && uses[i] != SERVICE
  {
    if uses != [] {
      var front, last := uses[..|uses| - 1], uses[|uses| - 1];
      ExternalUses(front);
      assert uses == front + [last];
      assert forall i :: 0 <= i < |front| ==> front[i] == uses[i] && front[i] in front;
      if Distinct(uses) {
        assert Distinct(front) && last !in front;
        assert last !in External(front);
      }
    }
  }

  // ----- Building the table -----

  ghost predicate BindingOk(b: Binding) {
    b.service != "" && b.destination != "" && b.policies != map[]
  }

  function Declared(service: string, methods: seq<Rpc>): set<string> {
    set i | 0 <= i < |methods| :: ProcedureOf(service, methods[i].name)
  }

  /** The descriptor is a service without streaming, and it declares exactly the procedures that have a policy. */
  ghost predicate DescriptorOk(b: Binding, resolver: Resolver) {
    && b.service in resolver && resolver[b.service].ServiceDescriptor?
    && var methods := resolver[b.service].methods;
       && (forall i :: 0 <= i < |methods| ==> !methods[i].streamingClient && !methods[i].streamingServer)
       && Declared(b.service, methods) == b.policies.Keys
  }

  ghost predicate PoliciesOk(b: Binding) {
    forall p :: p in b.policies ==> ValidPolicy(b.policies[p])
  }

  method CheckDescriptor(b: Binding, resolver: Resolver) returns (errs: seq<Error>)
    ensures errs == [] <==> DescriptorOk(b, resolver)
  {
    if b.service !in resolver || !resolver[b.service].ServiceDescriptor? {
      return [NoServiceDescriptor];
    }
    var methods := resolver[b.service].methods;
    var declared: set<string> := {};
    errs := [];
    for i := 0 to |methods|
      invariant declared == Declared(b.service, methods[..i])
      invariant errs == [] <==> forall j :: 0 <= j < i ==>
                  !methods[j].streamingClient && !methods[j].streamingServer
                  && ProcedureOf(b.service, methods[j].name) in b.policies
    {
      var procedure := ProcedureOf(b.service, methods[i].name);
      DeclaredOneMore(b.service, methods, i);
      declared := declared + {procedure};
      if methods[i].streamingClient || methods[i].streamingServer {
        errs := errs + [StreamingProcedure];
      }
      if procedure !in b.policies {
        errs := errs + [ProcedureMismatch];
      }
    }
    assert methods[..|methods|] == methods;
    ghost var unmatched := errs != [];
    var pending := b.policies.Keys;
    while pending != {}
      invariant pending <= b.policies.Keys
      invariant errs == [] <==> !unmatched && b.policies.Keys - pending <= declared
      decreases pending
    {
      var p :| p in pending;
      pending := pending - {p};
      if p !in declared {
        errs := errs + [ProcedureMismatch];
      }
    }
    assert declared <= b.policies.Keys <==> forall j :: 0 <= j < |methods| ==> ProcedureOf(b.service, methods[j].name) in b.policies;
  }

  lemma DeclaredOneMore(service: string, methods: seq<Rpc>, i: nat)
    requires i < |methods|
    ensures Declared(service, methods[..i + 1]) == Declared(service, methods[..i]) + {ProcedureOf(service, methods[i].name)}
  {
    var shorter, longer := methods[..i], methods[..i + 1];
    assert forall j :: 0 <= j < i ==> longer[j] == shorter[j];
    forall p | p in Declared(service, shorter) ensures p in Declared(service, longer) {
      var j :| 0 <= j < i && p == ProcedureOf(service, shorter[j].name);
      assert p == ProcedureOf(service, longer[j].name);
    }
    assert longer[i] == methods[i];
  }

  /** The entries of one binding. */
  function EntriesOf(b: Binding, procedures: set<string>): Entries {
    map p | p in procedures && p in b.policies :: EntryOf(p, b.destination, b.policies[p])
  }

  method AddBinding(entries: Entries, b: Binding) returns (added: Entries, errs: seq<Error>)
    ensures errs == [] <==> entries.Keys !! b.policies.Keys && PoliciesOk(b)
    ensures errs == [] ==> added == entries + EntriesOf(b, b.policies.Keys)
  {
    added, errs := entries, [];
    var pending := b.policies.Keys;
    while pending != {}
      invariant pending <= b.policies.Keys
      invariant errs == [] <==> Addable(entries, b, b.policies.Keys - pending)
      invariant errs == [] ==> added == entries + EntriesOf(b, b.policies.Keys - pending)
      decreases pending
    {
      var p :| p in pending;
      AddableOneMore(entries, b, b.policies.Keys - pending, p);
      assert b.policies.Keys - (pending - {p}) == (b.policies.Keys - pending) + {p};
      pending := pending - {p};
      if p in added {
        errs := errs + [DuplicateProcedure];
        continue;
      }
      var subjects := DeriveSubjects(b.policies[p]);
      if subjects.None? {
        errs := errs + [InvalidPolicy];
        continue;
      }
      var s := subjects.value;
      added := added[p := Entry(p, b.destination, s.anonymous, s.externalTokenUses, s.service, b.policies[p].requiredScopes, false)];
    }
  }

  /** These procedures of the binding are new to the table and have policies that can be enforced. */
  ghost predicate Addable(entries: Entries, b: Binding, procedures: set<string>) {
    forall p :: p in procedures && p in b.policies ==> p !in entries && ValidPolicy(b.policies[p])
  }

  lemma AddableOneMore(entries: Entries, b: Binding, procedures: set<string>, p: string)
    requires p in b.policies && p !in procedures
    ensures Addable(entries, b, procedures + {p}) <==>
            Addable(entries, b, procedures) && p !in entries && ValidPolicy(b.policies[p])
    ensures p in entries + EntriesOf(b, procedures) <==> p in entries
    ensures entries + EntriesOf(b, procedures + {p}) ==
            (entries + EntriesOf(b, procedures))[p := EntryOf(p, b.destination, b.policies[p])]
  {
  }

  /** The overrides list registered procedures that accept an external token, each once. */
  ghost predicate OverridesOk(entries: Entries, listed: seq<string>) {
    && Distinct(listed)
    && forall i :: 0 <= i < |listed| ==> listed[i] in entries && entries[listed[i]].externalTokenUses != []
  }

  /** The entries with introspection switched on where it is listed. */
  function Introspected(entries: Entries, listed: set<string>): Entries {
    map p | p in entries :: if p in listed then entries[p].(introspection := true) else entries[p]
  }

  method ApplyOverrides(entries: Entries, listed: seq<string>) returns (applied: Entries, errs: seq<Error>)
    ensures errs == [] <==> OverridesOk(entries, listed)
    ensures errs == [] ==> applied == Introspected(entries, Elements(listed))
  {
    applied, errs := entries, [];
    var seen: set<string> := {};
    for i := 0 to |listed|
      invariant seen == Elements(listed[..i])
      invariant errs == [] <==> OverridesOk(entries, listed[..i])
      invariant errs == [] ==> applied == Introspected(entries, Elements(listed[..i]))
      invariant applied.Keys == entries.Keys
      invariant forall p :: p in entries ==> applied[p].externalTokenUses == entries[p].externalTokenUses
    {
      OverridesOneMore(entries, listed, i);
      if listed[i] in seen {
        errs := errs + [InvalidOverride];
        continue;
      }
      seen := seen + {listed[i]};
      if listed[i] !in applied || |applied[listed[i]].externalTokenUses| == 0 {
        errs := errs + [InvalidOverride];
        continue;
      }
      applied := applied[listed[i] := applied[listed[i]].(introspection := true)];
    }
    assert listed[..|listed|] == listed;
  }

  lemma OverridesOneMore(entries: Entries, listed: seq<string>, i: nat)
    requires i < |listed|
    ensures Elements(listed[..i + 1]) == Elements(listed[..i]) + {listed[i]}
    ensures OverridesOk(entries, listed[..i + 1]) <==>
            && OverridesOk(entries, listed[..i]) && listed[i] !in Elements(listed[..i])
            && listed[i] in entries && entries[listed[i]].externalTokenUses != []
  {
    var shorter, longer := listed[..i], listed[..i + 1];
    assert longer == shorter + [listed[i]];
    assert forall j :: 0 <= j < i ==> longer[j] == shorter[j] && shorter[j] in shorter;
    assert longer[i] == listed[i];
  }

  // ----- The whole table -----

  /** What must hold of the bindings, their descriptors and their policies. */
  ghost predicate EachOk(b: Binding, resolver: Resolver) {
    BindingOk(b) && DescriptorOk(b, resolver) && PoliciesOk(b)
  }

  ghost predicate BindingsOk(bindings: seq<Binding>, resolver: Resolver) {
    && (forall i :: 0 <= i < |bindings| ==> EachOk(bindings[i], resolver))
    && (forall i, j :: 0 <= i < j < |bindings| ==> bindings[i].service != bindings[j].service)
    && (forall i, j :: 0 <= i < j < |bindings| ==> bindings[i].policies.Keys !! bindings[j].policies.Keys)
  }

  /** The entries of all bindings, before the overrides. */
  function AllEntries(bindings: seq<Binding>): Entries {
    if bindings == [] then map[]
    else var last := bindings[|bindings| - 1];
         AllEntries(bindings[..|bindings| - 1]) + EntriesOf(last, last.policies.Keys)
  }

  ghost predicate WellFormed(bindings: seq<Binding>, listed: seq<string>, resolver: Resolver) {
    BindingsOk(bindings, resolver) && OverridesOk(AllEntries(bindings), listed)
  }

  function Services(bindings: seq<Binding>): set<string> {
    set i | 0 <= i < |bindings| :: bindings[i].service
  }

  method Build(bindings: seq<Binding>, listed: seq<string>, resolver: Resolver) returns (built: Result<Entries, seq<Error>>)
    ensures built.Ok? <==> WellFormed(bindings, listed, resolver)
    ensures built.Ok? ==> built.value == Introspected(AllEntries(bindings), Elements(listed))
  {
    var entries: Entries := map[];
    var bound: set<string> := {};
    var errs: seq<Error> := [];
    for i := 0 to |bindings|
      invariant errs == [] <==> BindingsOk(bindings[..i], resolver)
      invariant errs == [] ==> bound == Services(bindings[..i]) && entries == AllEntries(bindings[..i])
    {
      var b := bindings[i];
      BindingsOneMore(bindings, resolver, i);
      assert bindings[..i + 1][..i] == bindings[..i];
      if b.service == "" || b.destination == "" || b.policies == map[] || b.service in bound {
        errs := errs + [InvalidBinding];
        continue;
      }
      bound := bound + {b.service};
      var mismatches := CheckDescriptor(b, resolver);
      errs := errs + mismatches;
      var refused: seq<Error>;
      entries, refused := AddBinding(entries, b);
      errs := errs + refused;
    }
    assert bindings[..|bindings|] == bindings;
    var refused: seq<Error>;
    entries, refused := ApplyOverrides(entries, listed);
    errs := errs + refused;
    if errs != [] {
      return Err(errs);
    }
    return Ok(entries);
  }

  /** The procedures of the table are those of the bindings. */
  lemma {:induction false} AllEntriesKeys(bindings: seq<Binding>)
    ensures forall p :: p in AllEntries(bindings) <==> exists i :: 0 <= i < |bindings| && p in bindings[i].policies
  {
    if bindings != [] {
      var front, last := bindings[..|bindings| - 1], bindings[|bindings| - 1];
      AllEntriesKeys(front);
      assert forall i :: 0 <= i < |front| ==> front[i] == bindings[i];
      forall p ensures p in AllEntries(bindings) <==> exists i :: 0 <= i < |bindings| && p in bindings[i].policies {
        if p in last.policies {
          assert p in bindings[|front|].policies;
        }
        if p in AllEntries(front) {
          var i :| 0 <= i < |front| && p in front[i].policies;
          assert p in bindings[i].policies;
        }
      }
    }
  }

  lemma ServicesOneMore(bindings: seq<Binding>, i: nat)
    requires i < |bindings|
    ensures Services(bindings[..i + 1]) == Services(bindings[..i]) + {bindings[i].service}
  {
    var shorter, longer := bindings[..i], bindings[..i + 1];
    assert longer[i] == bindings[i];
    forall s | s in Services(shorter) ensures s in Services(longer) {
      var j :| 0 <= j < i && s == shorter[j].service;
      assert s == longer[j].service;
    }
  }

  lemma BindingsOneMore(bindings: seq<Binding>, resolver: Resolver, i: nat)
    requires i < |bindings|
    ensures Services(bindings[..i + 1]) == Services(bindings[..i]) + {bindings[i].service}
    ensures BindingsOk(bindings[..i + 1], resolver) <==>
            && BindingsOk(bindings[..i], resolver) && EachOk(bindings[i], resolver)
            && bindings[i].service !in Services(bindings[..i])
            && AllEntries(bindings[..i]).Keys !! bindings[i].policies.Keys
  {
    ServicesOneMore(bindings, i);
    NewServiceAndProcedures(bindings[..i], bindings[i]);
    assert bindings[..i + 1] == bindings[..i] + [bindings[i]];
    BindingsAppended(bindings[..i], bindings[i], resolver);
  }

  /** A binding clashes with none of the others: neither by its service nor by a procedure. */
  ghost predicate Apart(others: seq<Binding>, b: Binding) {
    forall j :: 0 <= j < |others| ==> others[j].service != b.service && others[j].policies.Keys !! b.policies.Keys
  }

  lemma NewServiceAndProcedures(others: seq<Binding>, b: Binding)
    ensures Apart(others, b) <==> b.service !in Services(others) && AllEntries(others).Keys !! b.policies.Keys
  {
    AllEntriesKeys(others);
    if Apart(others, b) {
      forall p | p in AllEntries(others) ensures p !in b.policies {
        var j :| 0 <= j < |others| && p in others[j].policies;
      }
    }
    if b.service !in Services(others) && AllEntries(others).Keys !! b.policies.Keys {
      forall j, p | 0 <= j < |others| && p in others[j].policies ensures p !in b.policies {
        assert p in AllEntries(others);
      }
      assert forall j :: 0 <= j < |others| ==> others[j].service in Services(others);
    }
  }

  lemma BindingsAppended(others: seq<Binding>, b: Binding, resolver: Resolver)
    ensures BindingsOk(others + [b], resolver) <==> BindingsOk(others, resolver) && EachOk(b, resolver) && Apart(others, b)
  {
    var all := others + [b];
    assert forall j :: 0 <= j < |others| ==> all[j] == others[j];
    assert all[|others|] == b;
  }

  // ----- What a built table promises -----

  /** Every entry comes from the policy of the one binding that declares its procedure. */
  lemma {:induction false} EntryComesFromItsBinding(bindings: seq<Binding>, resolver: Resolver, i: nat, p: string)
    requires BindingsOk(bindings, resolver) && i < |bindings| && p in bindings[i].policies
    ensures p in AllEntries(bindings)
    ensures AllEntries(bindings)[p] == EntryOf(p, bindings[i].destination, bindings[i].policies[p])
  {
    FrontOk(bindings, resolver);
    if i < |bindings| - 1 {
      EntryComesFromItsBinding(bindings[..|bindings| - 1], resolver, i, p);
      assert bindings[i].policies.Keys !! bindings[|bindings| - 1].policies.Keys;
    }
  }

  lemma FrontOk(bindings: seq<Binding>, resolver: Resolver)
    requires BindingsOk(bindings, resolver) && bindings != []
    ensures BindingsOk(bindings[..|bindings| - 1], resolver)
  {
    var front, last := bindings[..|bindings| - 1], bindings[|bindings| - 1];
    assert bindings == front + [last];
    BindingsAppended(front, last, resolver);
  }

  /** The table holds exactly the methods the bound services declare. */
  lemma EntriesAreTheDeclaredMethods(bindings: seq<Binding>, listed: seq<string>, resolver: Resolver, p: string)
    requires WellFormed(bindings, listed, resolver)
    ensures p in Introspected(AllEntries(bindings), Elements(listed)) <==>
            exists i, n :: DeclaresAt(bindings, resolver, i, n, p)
  {
    AllEntriesKeys(bindings);
    if p in AllEntries(bindings) {
      var i :| 0 <= i < |bindings| && p in bindings[i].policies;
      DeclaredInBinding(bindings, resolver, i, p);
    }
    if i, n :| DeclaresAt(bindings, resolver, i, n, p) {
      DeclaredInBinding(bindings, resolver, i, p);
    }
  }

  lemma DeclaredInBinding(bindings: seq<Binding>, resolver: Resolver, i: nat, p: string)
    requires BindingsOk(bindings, resolver) && i < |bindings|
    ensures p in bindings[i].policies <==> exists n :: DeclaresAt(bindings, resolver, i, n, p)
  {
    var b := bindings[i];
    assert EachOk(b, resolver);
    var methods := resolver[b.service].methods;
    assert p in b.policies <==> p in Declared(b.service, methods);
    if p in Declared(b.service, methods) {
      var n :| 0 <= n < |methods| && p == ProcedureOf(b.service, methods[n].name);
      assert DeclaresAt(bindings, resolver, i, n, p);
    }
  }

  /** Registered procedures are unary: none of them streams in either direction. */
  lemma RegisteredMethodsAreUnary(bindings: seq<Binding>, listed: seq<string>, resolver: Resolver, i: nat, n: nat, p: string)
    requires WellFormed(bindings, listed, resolver) && DeclaresAt(bindings, resolver, i, n, p)
    ensures var rpc := resolver[bindings[i].service].methods[n]; !rpc.streamingClient && !rpc.streamingServer
  {
    assert EachOk(bindings[i], resolver);
  }

  /** Method n of the service of binding i is this procedure. */
  ghost predicate DeclaresAt(bindings: seq<Binding>, resolver: Resolver, i: int, n: int, p: string) {
    && 0 <= i < |bindings| && bindings[i].service in resolver && resolver[bindings[i].service].ServiceDescriptor?
    && 0 <= n < |resolver[bindings[i].service].methods|
    && p == ProcedureOf(bindings[i].service, resolver[bindings[i].service].methods[n].name)
  }

  /**
   What callers of the table rely on. An entry is under its own name; it either is anonymous and asks for nothing,
   or accepts an external token use or a service; its external uses are known, distinct and never "service";
   and introspection is on exactly where the overrides list it, which only happens with external uses.
   */
  lemma EntryShape(bindings: seq<Binding>, listed: seq<string>, resolver: Resolver, p: string)
    requires WellFormed(bindings, listed, resolver)
    requires p in Introspected(AllEntries(bindings), Elements(listed))
    ensures var e := Introspected(AllEntries(bindings), Elements(listed))[p];
            && e.procedure == p
            && (if e.anonymous then e.externalTokenUses == [] && e.requiredScopes == [] && !e.service && !e.introspection
                else e.externalTokenUses != [] || e.service)
            && Distinct(e.externalTokenUses) && SERVICE !in e.externalTokenUses
            && (forall u :: u in e.externalTokenUses ==> IsKnownTokenUse(u))
            && (e.introspection <==> p in listed)
            && (e.introspection ==> e.externalTokenUses != [])
  {
    AllEntriesKeys(bindings);
    var i :| 0 <= i < |bindings| && p in bindings[i].policies;
    EntryComesFromItsBinding(bindings, resolver, i, p);
    assert EachOk(bindings[i], resolver);
    var policy := bindings[i].policies[p];
    assert ValidPolicy(policy);
    ExternalUses(policy.tokenUses);
    if p in listed {
      var n :| 0 <= n < |listed| && listed[n] == p;
      assert AllEntries(bindings)[listed[n]].externalTokenUses != [];
    }
  }

  /** The uses of the list other than "service", once each and in the order they are declared. */
  ghost predicate ExternalOf(external: seq<string>, uses: seq<string>) {
    && (forall u :: u in external <==> u in uses && u != "service")
    && Distinct(external)
    && forall i, j :: 0 <= i < j < |external| ==> Before(uses, external[i], external[j])
  }

  /** One use is declared before another. */
  ghost predicate Before(uses: seq<string>, u: string, u': string) {
    exists a, b :: 0 <= a < b < |uses| && uses[a] == u && uses[b] == u'
  }

  lemma BeforeOneMore(uses: seq<string>, last: string, u: string, u': string)
    requires Before(uses, u, u') || (u in uses && u' == last)
    ensures Before(uses + [last], u, u')
  {
    var longer := uses + [last];
    if Before(uses, u, u') {
      var a, b :| 0 <= a < b < |uses| && uses[a] == u && uses[b] == u';
      assert longer[a] == u && longer[b] == u';
    } else {
      var a :| 0 <= a < |uses| && uses[a] == u;
      assert longer[a] == u && longer[|uses|] == u';
    }
  }

  lemma {:induction false} ExternalInOrder(uses: seq<string>)
    requires Distinct(uses)
    ensures ExternalOf(External(uses), uses)
  {
    ExternalUses(uses);
    if uses != [] {
      var front, last := uses[..|uses| - 1], uses[|uses| - 1];
      assert uses == front + [last];
      assert Distinct(front) by { assert forall i :: 0 <= i < |front| ==> front[i] == uses[i]; }
      ExternalInOrder(front);
      var external, before := External(uses), External(front);
      forall i, j | 0 <= i < j < |external| ensures Before(uses, external[i], external[j]) {
        assert external[i] == before[i] && before[i] in before;
        BeforeOneMore(front, last, external[i], external[j]);
      }
    }
  }

  /**
   What a built entry is, by the binding and the policy that declare its procedure: it goes to the destination of
   the binding and asks for exactly the scopes the policy requires; it is anonymous exactly for a public policy;
   it accepts a service exactly for an internal policy or where "service" is declared; and it accepts the other
   declared uses, in order.
   */
  lemma BuiltEntry(bindings: seq<Binding>, listed: seq<string>, resolver: Resolver, i: nat, p: string)
    requires WellFormed(bindings, listed, resolver) && i < |bindings| && p in bindings[i].policies
    ensures p in Introspected(AllEntries(bindings), Elements(listed))
    ensures var e, policy := Introspected(AllEntries(bindings), Elements(listed))[p], bindings[i].policies[p];
            && e.procedure == p && e.destination == bindings[i].destination
            && e.requiredScopes == policy.requiredScopes
            && (e.anonymous <==> policy.level == Public)
            && (e.service <==> policy.level == Internal || "service" in policy.tokenUses)
            && ExternalOf(e.externalTokenUses, policy.tokenUses)
            && (e.introspection <==> p in listed)
  {
    EntryComesFromItsBinding(bindings, resolver, i, p);
    PolicyOfBinding(bindings, resolver, i, p);
    SubjectsExactly(bindings[i].policies[p]);
  }

  lemma PolicyOfBinding(bindings: seq<Binding>, resolver: Resolver, i: nat, p: string)
    requires BindingsOk(bindings, resolver) && i < |bindings| && p in bindings[i].policies
    ensures ValidPolicy(bindings[i].policies[p])
  {
    assert EachOk(bindings[i], resolver);
  }

  /** Whom a policy accepts, by its level and its declared uses. */
  lemma SubjectsExactly(policy: Policy)
    requires ValidPolicy(policy)
    ensures var s := SubjectsOf(policy);
            && (s.anonymous <==> policy.level == Public)
            && (s.service <==> policy.level == Internal || "service" in policy.tokenUses)
            && ExternalOf(s.externalTokenUses, policy.tokenUses)
  {
    if policy.level.Authenticated? {
      ExternalInOrder(policy.tokenUses);
    }
  }
}
