/**
 The services and edges the gateway ships with (internal/catalog/catalog.go). The policies of the services are
 generated elsewhere and stay arbitrary; names of services and methods are those of
 internal/catalog/testdata/registry.golden and edges.golden.
 */
module Catalog {
  import opened Common
  import opened Registry
  import opened EdgePolicy
  import opened Mounts
  import opened Chain

  datatype Backend = TestBackend | TenantManagement | GraphAuthoring | Observation | Operation | Guest | Realtime

  function Name(b: Backend): string {
    match b
    case TestBackend => "tolo-testbackend"
    case TenantManagement => "tolo-tenant-management"
    case GraphAuthoring => "tolo-graph-authoring"
    case Observation => "tolo-observation"
    case Operation => "tolo-operation"
    case Guest => "tolo-guest"
    case Realtime => "tolo-realtime"
  }

  datatype Service =
    | Greet | Tenant | RelationAdmin | GraphEditing | GraphSupply | MeasurementIngest | EdgeDevice | ObservationSettings
    | StatusQuery | StaffCommunication | OperationControl | DeliveryCoordination | Digest | GuestPage | GuestSettings
    | RealtimeFetch

  function Package(s: Service): string {
    match s
    case Greet => "greet.v1."
    case Tenant => "tolo.tenant.v1."
    case RelationAdmin => "tolo.relation.v1."
    case GraphEditing => "tolo.graph.v1."
    case GraphSupply => "tolo.graph.v1."
    case MeasurementIngest => "tolo.observation.v1."
    case EdgeDevice => "tolo.observation.v1."
    case ObservationSettings => "tolo.observation.v1."
    case StatusQuery => "tolo.observation.v1."
    case StaffCommunication => "tolo.operation.v1."
    case OperationControl => "tolo.operation.v1."
    case DeliveryCoordination => "tolo.operation.v1."
    case Digest => "tolo.operation.v1."
    case GuestPage => "tolo.guest.v1."
    case GuestSettings => "tolo.guest.v1."
    case RealtimeFetch => "tolo.realtime.v1."
  }

  function TypeName(s: Service): string {
    match s
    case Greet => "GreetService"
    case Tenant => "TenantService"
    case RelationAdmin => "RelationAdminService"
    case GraphEditing => "GraphAuthoringService"
    case GraphSupply => "GraphSupplyService"
    case MeasurementIngest => "MeasurementIngestService"
    case EdgeDevice => "EdgeDeviceService"
    case ObservationSettings => "ObservationSettingsService"
    case StatusQuery => "StatusQueryService"
    case StaffCommunication => "StaffCommunicationService"
    case OperationControl => "OperationControlService"
    case DeliveryCoordination => "DeliveryCoordinationService"
    case Digest => "DigestService"
    case GuestPage => "GuestPageService"
    case GuestSettings => "GuestSettingsService"
    case RealtimeFetch => "RealtimeFetchService"
  }

  function ServiceName(s: Service): string {
    Package(s) + TypeName(s)
  }

  function BackendOf(s: Service): Backend {
    match s
    case Greet => TestBackend
    case Tenant => TenantManagement
    case RelationAdmin => TenantManagement
    case GraphEditing => GraphAuthoring
    case GraphSupply => GraphAuthoring
    case MeasurementIngest => Observation
    case EdgeDevice => Observation
    case ObservationSettings => Observation
    case StatusQuery => Observation
    case StaffCommunication => Operation
    case OperationControl => Operation
    case DeliveryCoordination => Operation
    case Digest => Operation
    case GuestPage => Guest
    case GuestSettings => Guest
    case RealtimeFetch => Realtime
  }

  const BOUND: seq<Service> := [Greet, Tenant, RelationAdmin, GraphEditing, GraphSupply, MeasurementIngest, EdgeDevice,
    ObservationSettings, StatusQuery, StaffCommunication, OperationControl, DeliveryCoordination, Digest, GuestPage,
    GuestSettings, RealtimeFetch]

  /** The bindings of the catalog, whatever the generated policies are. */
  ghost predicate CatalogBindings(bindings: seq<Binding>) {
    && |bindings| == |BOUND|
    && forall i :: 0 <= i < |bindings| ==>
         bindings[i].service == ServiceName(BOUND[i]) && bindings[i].destination == Name(BackendOf(BOUND[i]))
  }

  datatype Method =
    | GetEvent | GetCurrentRevision | GetObservationPointMappings | GetQrLocations | RequestProposalDelivery
    | RecordFeedbackValues | ListStaffMessages | GetDisplayNames | GetGuideMapLayout | GetGuestSnapshot | ReportMeasurements

  function MethodName(m: Method): string {
    match m
    case GetEvent => "GetEvent"
    case GetCurrentRevision => "GetCurrentRevision"
    case GetObservationPointMappings => "GetObservationPointMappings"
    case GetQrLocations => "GetQrLocations"
    case RequestProposalDelivery => "RequestProposalDelivery"
    case RecordFeedbackValues => "RecordFeedbackValues"
    case ListStaffMessages => "ListStaffMessages"
    case GetDisplayNames => "GetDisplayNames"
    case GetGuideMapLayout => "GetGuideMapLayout"
    case GetGuestSnapshot => "GetGuestSnapshot"
    case ReportMeasurements => "ReportMeasurements"
  }

  /** One line of the edge table: a user edge takes event access and nothing else. */
  datatype Row = Row(caller: Backend, service: Service, rpc: Method, user: bool, machineChain: bool, newMachineOrigin: bool)

  const ROWS: seq<Row> := [
    Row(GraphAuthoring, Tenant, GetEvent, true, false, false),
    Row(Observation, GraphSupply, GetCurrentRevision, true, true, false),
    Row(Observation, GraphSupply, GetObservationPointMappings, true, true, false),
    Row(Observation, GraphSupply, GetQrLocations, true, true, false),
    Row(Observation, DeliveryCoordination, RequestProposalDelivery, true, true, false),
    Row(Observation, DeliveryCoordination, RecordFeedbackValues, true, true, false),
    Row(Guest, StaffCommunication, ListStaffMessages, false, false, true),
    Row(Guest, GraphSupply, GetDisplayNames, false, false, true),
    Row(Guest, GraphSupply, GetQrLocations, false, false, true),
    Row(Guest, GraphSupply, GetGuideMapLayout, false, false, true),
    Row(Guest, StatusQuery, GetGuestSnapshot, false, false, true),
    Row(Guest, MeasurementIngest, ReportMeasurements, false, false, true)]

  function EdgeOf(r: Row): Edge {
    Edge(Name(r.caller), ProcedureOf(ServiceName(r.service), MethodName(r.rpc)),
         if r.user then [EVENT_ACCESS] else [], r.machineChain, r.newMachineOrigin)
  }

  function Edges(): seq<Edge> {
    seq(|ROWS|, i requires 0 <= i < |ROWS| => EdgeOf(ROWS[i]))
  }

  lemma PlainBinding(bindings: seq<Binding>, resolver: Resolver, i: nat)
    requires BindingsOk(bindings, resolver) && PlainNames(resolver) && i < |bindings|
    ensures DescriptorOk(bindings[i], resolver) && '/' !in bindings[i].service
  {
    assert EachOk(bindings[i], resolver);
  }

  /** A procedure has a policy in one binding at most: that of its service. */
  lemma BindingOfProcedure(bindings: seq<Binding>, resolver: Resolver, i: nat, j: nat, rpc: string)
    requires BindingsOk(bindings, resolver) && PlainNames(resolver) && i < |bindings| && j < |bindings|
    requires ProcedureOf(bindings[i].service, rpc) in bindings[j].policies
    ensures i == j
  {
    PlainBinding(bindings, resolver, i);
    PlainBinding(bindings, resolver, j);
    DeclaredUnderItsService(bindings[j], resolver, bindings[i].service, rpc);
  }

  /** A procedure of a bound service is served by the destination of that service. */
  lemma DestinationOfService(bindings: seq<Binding>, resolver: Resolver, i: nat, rpc: string)
    requires BindingsOk(bindings, resolver) && PlainNames(resolver) && i < |bindings|
    requires ProcedureOf(bindings[i].service, rpc) in AllEntries(bindings)
    ensures AllEntries(bindings)[ProcedureOf(bindings[i].service, rpc)].destination == bindings[i].destination
  {
    var p := ProcedureOf(bindings[i].service, rpc);
    AllEntriesKeys(bindings);
    var j :| 0 <= j < |bindings| && p in bindings[j].policies;
    BindingOfProcedure(bindings, resolver, i, j, rpc);
    EntryComesFromItsBinding(bindings, resolver, i, p);
  }

  lemma DeclaredUnderItsService(b: Binding, resolver: Resolver, s: string, rpc: string)
    requires DescriptorOk(b, resolver) && PlainNames(resolver) && '/' !in s && ProcedureOf(s, rpc) in b.policies
    ensures b.service == s
  {
    var methods := resolver[b.service].methods;
    assert ProcedureOf(s, rpc) in Declared(b.service, methods);
    var n :| 0 <= n < |methods| && ProcedureOf(s, rpc) == ProcedureOf(b.service, methods[n].name);
    PrefixOfProcedure(s, s, rpc);
    PrefixOfProcedure(s, b.service, methods[n].name);
  }

  /** How many reissues a context token can still lead to: one for a user's entry token, one for a machine at observation. */
  function ShippedRank(service: string, origin: Class): nat {
    match origin
    case User(tokenUse) => if tokenUse == SERVICE then 0 else 1
    case Machine => if service == Name(Observation) then 1 else 0
  }

  /** Only observation continues a machine's chain, and never towards itself. */
  lemma MachineRows(i: nat)
    requires i < |ROWS| && ROWS[i].machineChain
    ensures ROWS[i].service in BOUND && ROWS[i].caller == Observation && Name(BackendOf(ROWS[i].service)) != Name(Observation)
  {
    assert BOUND[4] == GraphSupply && BOUND[11] == DeliveryCoordination;
    assert Name(Observation)[5..7] == "ob" && Name(GraphAuthoring)[5..7] == "gr" && Name(Operation)[5..7] == "op";
  }

  lemma RowFalls(i: nat, destination: string)
    requires i < |ROWS| && (ROWS[i].machineChain ==> destination == Name(BackendOf(ROWS[i].service)))
    ensures FallsAlong(ShippedRank, EdgeOf(ROWS[i]), destination)
  {
    assert SERVICE[0] == 's' && EVENT_ACCESS[0] == 'e';
    if ROWS[i].machineChain {
      MachineRows(i);
    }
  }

  lemma ShippedRankFalls(bindings: seq<Binding>, listed: seq<string>, resolver: Resolver)
    requires CatalogBindings(bindings) && WellFormed(bindings, listed, resolver) && PlainNames(resolver)
    ensures Falls(ShippedRank, Edges(), Introspected(AllEntries(bindings), Elements(listed)))
  {
    var entries, edges := Introspected(AllEntries(bindings), Elements(listed)), Edges();
    forall i | 0 <= i < |edges| && edges[i].procedure in entries
      ensures FallsAlong(ShippedRank, edges[i], entries[edges[i].procedure].destination)
    {
      if ROWS[i].machineChain {
        MachineRows(i);
        DestinationOfRow(bindings, resolver, i);
      }
      RowFalls(i, entries[edges[i].procedure].destination);
    }
  }

  lemma DestinationOfRow(bindings: seq<Binding>, resolver: Resolver, i: nat)
    requires CatalogBindings(bindings) && BindingsOk(bindings, resolver) && PlainNames(resolver)
    requires i < |ROWS| && ROWS[i].service in BOUND && EdgeOf(ROWS[i]).procedure in AllEntries(bindings)
    ensures AllEntries(bindings)[EdgeOf(ROWS[i]).procedure].destination == Name(BackendOf(ROWS[i].service))
  {
    var b :| 0 <= b < |BOUND| && BOUND[b] == ROWS[i].service;
    DestinationOfService(bindings, resolver, b, MethodName(ROWS[i].rpc));
  }

  /**
   With the shipped bindings and edges, in every run and whatever the policies and requests: a chain a user
   started is reissued at most once, and a chain a machine started consists of at most two service tokens.
   */
  lemma ShippedChainsAreShort(bindings: seq<Binding>, listed: seq<string>, resolver: Resolver, policy: EdgePolicy.Policy,
                              states: seq<Tokens>, steps: seq<Step>, n: nat, ts: seq<string>)
    requires CatalogBindings(bindings) && WellFormed(bindings, listed, resolver) && PlainNames(resolver)
    requires var entries := Introspected(AllEntries(bindings), Elements(listed));
             && EdgesOk(Edges(), entries) && HoldsEdges(policy, Edges())
             && IsRun(Gateway(entries, policy), states, steps)
    requires n < |states| && IsChain(states[n], ts)
    ensures Reissues(states[n], ts) <= if EntryClaims(states[n][ts[0]].claims) then 1 else 2
  {
    var g := Gateway(Introspected(AllEntries(bindings), Elements(listed)), policy);
    ShippedRankFalls(bindings, listed, resolver);
    RunKeeps(g, states, steps, n);
    ChainsAreRanked(g, Edges(), ShippedRank, states[n], ts);
  }

  /** Row i of the table is an edge of the policy, and leads to the destination of its service. */
  lemma RowIsEnforced(bindings: seq<Binding>, listed: seq<string>, resolver: Resolver, policy: EdgePolicy.Policy, i: nat)
    requires CatalogBindings(bindings) && WellFormed(bindings, listed, resolver) && PlainNames(resolver)
    requires EdgesOk(Edges(), Introspected(AllEntries(bindings), Elements(listed))) && HoldsEdges(policy, Edges())
    requires i < |ROWS| && ROWS[i].service in BOUND
    ensures var entries, edge := Introspected(AllEntries(bindings), Elements(listed)), EdgeOf(ROWS[i]);
            && Permits(Gateway(entries, policy), edge.caller, edge.procedure) && policy[(edge.caller, edge.procedure)] == edge
            && entries[edge.procedure].destination == Name(BackendOf(ROWS[i].service))
  {
    var entries, edge := Introspected(AllEntries(bindings), Elements(listed)), EdgeOf(ROWS[i]);
    assert Edges()[i] == edge && KeyOf(edge) == (edge.caller, edge.procedure);
    assert EdgeOk(Edges()[i], entries);
    EntryShape(bindings, listed, resolver, edge.procedure);
    DestinationOfRow(bindings, resolver, i);
  }

  /** The bound for machines is reached: the guest service starts a chain at observation, which continues it. */
  lemma ShippedBoundIsReached(bindings: seq<Binding>, listed: seq<string>, resolver: Resolver, policy: EdgePolicy.Policy)
    returns (states: seq<Tokens>, steps: seq<Step>, ts: seq<string>)
    requires CatalogBindings(bindings) && WellFormed(bindings, listed, resolver) && PlainNames(resolver)
    requires EdgesOk(Edges(), Introspected(AllEntries(bindings), Elements(listed))) && HoldsEdges(policy, Edges())
    ensures IsRun(Gateway(Introspected(AllEntries(bindings), Elements(listed)), policy), states, steps)
    ensures |states| == 3 && IsChain(states[2], ts) && !EntryClaims(states[2][ts[0]].claims) && Reissues(states[2], ts) == 2
  {
    var g := Gateway(Introspected(AllEntries(bindings), Elements(listed)), policy);
    var start, next := EdgeOf(ROWS[10]), EdgeOf(ROWS[1]);
    TwoRows();
    RowIsEnforced(bindings, listed, resolver, policy, 10);
    RowIsEnforced(bindings, listed, resolver, policy, 1);
    states, steps, ts := TwoHops(g, start.caller, start.procedure, next.procedure);
  }

  /** Row 10 lets a machine start at the service that row 1 lets go on. */
  lemma TwoRows()
    ensures ROWS[10].service in BOUND && ROWS[1].service in BOUND
    ensures EdgeOf(ROWS[10]).newMachineOrigin && EdgeOf(ROWS[1]).machineChain
    ensures EdgeOf(ROWS[1]).caller == Name(BackendOf(ROWS[10].service))
  {
    assert BOUND[8] == StatusQuery && BOUND[4] == GraphSupply;
  }

  // ----- Start-up accepts the shipped edges -----

  function ServiceSize(s: Service): nat {
    match s
    case Greet => 21
    case Tenant => 28
    case RelationAdmin => 37
    case GraphEditing => 35
    case GraphSupply => 32
    case MeasurementIngest => 44
    case EdgeDevice => 37
    case ObservationSettings => 46
    case StatusQuery => 38
    case StaffCommunication => 43
    case OperationControl => 41
    case DeliveryCoordination => 45
    case Digest => 31
    case GuestPage => 30
    case GuestSettings => 34
    case RealtimeFetch => 37
  }

  function MethodSize(m: Method): nat {
    match m
    case GetEvent => 8
    case GetCurrentRevision => 18
    case GetObservationPointMappings => 27
    case GetQrLocations => 14
    case RequestProposalDelivery => 23
    case RecordFeedbackValues => 20
    case ListStaffMessages => 17
    case GetDisplayNames => 15
    case GetGuideMapLayout => 17
    case GetGuestSnapshot => 16
    case ReportMeasurements => 18
  }

  lemma SizeOfService(s: Service)
    ensures |ServiceName(s)| == ServiceSize(s)
  {
  }

  lemma SizeOfMethod(m: Method)
    ensures |MethodName(m)| == MethodSize(m)
  {
  }

  function SizeOf(r: Row): nat {
    2 + ServiceSize(r.service) + MethodSize(r.rpc)
  }

  lemma SizeOfRow(r: Row)
    ensures |EdgeOf(r).procedure| == SizeOf(r)
  {
    SizeOfService(r.service);
    SizeOfMethod(r.rpc);
    assert |EdgeOf(r).procedure| == 1 + |ServiceName(r.service)| + 1 + |MethodName(r.rpc)|;
  }

  /** No service calls itself, and the procedures one service calls differ even in length. */
  lemma RowsAreApart()
    ensures forall i :: 0 <= i < |ROWS| ==> ROWS[i].caller != BackendOf(ROWS[i].service)
    ensures forall i, j :: 0 <= i < j < |ROWS| && ROWS[i].caller == ROWS[j].caller ==> SizeOf(ROWS[i]) != SizeOf(ROWS[j])
  {
  }

  lemma EveryServiceIsBound(s: Service)
    ensures s in BOUND
  {
    assert BOUND[0] == Greet && BOUND[1] == Tenant && BOUND[2] == RelationAdmin && BOUND[3] == GraphEditing
           && BOUND[4] == GraphSupply && BOUND[5] == MeasurementIngest && BOUND[6] == EdgeDevice
           && BOUND[7] == ObservationSettings && BOUND[8] == StatusQuery && BOUND[9] == StaffCommunication
           && BOUND[10] == OperationControl && BOUND[11] == DeliveryCoordination && BOUND[12] == Digest
           && BOUND[13] == GuestPage && BOUND[14] == GuestSettings && BOUND[15] == RealtimeFetch;
  }

  /** Backends have different names. */
  lemma NamesDiffer(a: Backend, b: Backend)
    ensures Name(a) == Name(b) <==> a == b
    ensures Name(a) != ""
  {
    assert |Name(TestBackend)| == 16 && |Name(TenantManagement)| == 22 && |Name(GraphAuthoring)| == 20;
    assert |Name(Observation)| == 16 && |Name(Operation)| == 14 && |Name(Guest)| == 10 && |Name(Realtime)| == 13;
    assert Name(TestBackend)[5] == 't' && Name(Observation)[5] == 'o';
  }

  lemma KeysDiffer(i: nat, j: nat)
    requires i < j < |ROWS|
    ensures KeyOf(EdgeOf(ROWS[i])) != KeyOf(EdgeOf(ROWS[j]))
  {
    SizeOfRow(ROWS[i]);
    SizeOfRow(ROWS[j]);
    NamesDiffer(ROWS[i].caller, ROWS[j].caller);
    RowsAreApart();
  }

  /** The procedure of this row is registered and accepts a service. */
  predicate RowIsServed(entries: Entries, r: Row) {
    EdgeOf(r).procedure in entries && entries[EdgeOf(r).procedure].service
  }

  lemma RowIsAccepted(bindings: seq<Binding>, listed: seq<string>, resolver: Resolver, i: nat)
    requires CatalogBindings(bindings) && BindingsOk(bindings, resolver) && PlainNames(resolver) && i < |ROWS|
    ensures var entries := Introspected(AllEntries(bindings), Elements(listed));
            EdgeOk(EdgeOf(ROWS[i]), entries) <==> RowIsServed(entries, ROWS[i])
  {
    var entries := Introspected(AllEntries(bindings), Elements(listed));
    if RowIsServed(entries, ROWS[i]) {
      EveryServiceIsBound(ROWS[i].service);
      DestinationOfRow(bindings, resolver, i);
      RowsAreApart();
      NamesDiffer(ROWS[i].caller, BackendOf(ROWS[i].service));
      RowIsWellFormed(ROWS[i]);
      RowsAcceptSomething();
    }
  }

  /** What a row is whatever it leads to. */
  lemma RowIsWellFormed(r: Row)
    ensures var e := EdgeOf(r); e.caller != "" && e.procedure != "" && TokenUsesOk(e.userOriginTokenUses)
  {
    NamesDiffer(r.caller, r.caller);
    SizeOfRow(r);
  }

  lemma RowsAcceptSomething()
    ensures forall i :: 0 <= i < |ROWS| ==> ROWS[i].user || ROWS[i].machineChain || ROWS[i].newMachineOrigin
  {
  }

  /** Start-up accepts the shipped edges exactly when every row's procedure is registered and accepts a service. */
  lemma ShippedEdgesAcceptedExactlyWhen(bindings: seq<Binding>, listed: seq<string>, resolver: Resolver)
    requires CatalogBindings(bindings) && BindingsOk(bindings, resolver) && PlainNames(resolver)
    ensures var entries := Introspected(AllEntries(bindings), Elements(listed));
            EdgesOk(Edges(), entries) <==> forall i :: 0 <= i < |ROWS| ==> RowIsServed(entries, ROWS[i])
  {
    ShippedKeysDiffer();
    forall i | 0 <= i < |ROWS|
      ensures EdgeOk(Edges()[i], Introspected(AllEntries(bindings), Elements(listed))) <==>
              RowIsServed(Introspected(AllEntries(bindings), Elements(listed)), ROWS[i])
    {
      RowIsAccepted(bindings, listed, resolver, i);
    }
  }

  lemma ShippedKeysDiffer()
    ensures forall i, j :: 0 <= i < j < |Edges()| ==> KeyOf(Edges()[i]) != KeyOf(Edges()[j])
  {
    forall i, j | 0 <= i < j < |Edges()| ensures KeyOf(Edges()[i]) != KeyOf(Edges()[j]) {
      KeysDiffer(i, j);
    }
  }

  // ----- There are policies with which start-up succeeds -----

  const METHODS: seq<Method> := [GetEvent, GetCurrentRevision, GetObservationPointMappings, GetQrLocations,
    RequestProposalDelivery, RecordFeedbackValues, ListStaffMessages, GetDisplayNames, GetGuideMapLayout, GetGuestSnapshot,
    ReportMeasurements]

  function Rpcs(): seq<Rpc> {
    seq(|METHODS|, i requires 0 <= i < |METHODS| => Rpc(MethodName(METHODS[i]), false, false))
  }

  /** Every bound service declares all of these methods, and all of them are internal. */
  function InternalResolver(): Resolver {
    var names := set i | 0 <= i < |BOUND| :: ServiceName(BOUND[i]);
    map name | name in names :: ServiceDescriptor(Rpcs())
  }

  function InternalBinding(s: Service): Binding {
    var procedures := Declared(ServiceName(s), Rpcs());
    Binding(ServiceName(s), Name(BackendOf(s)), map p | p in procedures :: Registry.Policy.Policy(Level.Internal, [], []))
  }

  function InternalBindings(): seq<Binding> {
    seq(|BOUND|, i requires 0 <= i < |BOUND| => InternalBinding(BOUND[i]))
  }

  /** The services whose names are equally long differ in the eighth letter. */
  predicate OfEqualSize(s: Service) {
    s.RelationAdmin? || s.EdgeDevice? || s.RealtimeFetch?
  }

  function EighthLetter(s: Service): char
    requires OfEqualSize(s)
  {
    if s.RelationAdmin? then 'l' else if s.EdgeDevice? then 's' else 'a'
  }

  lemma SameSize(a: Service, b: Service)
    requires ServiceSize(a) == ServiceSize(b) && a != b
    ensures OfEqualSize(a) && OfEqualSize(b) && EighthLetter(a) != EighthLetter(b)
  {
  }

  lemma EighthLetterOf(s: Service)
    requires OfEqualSize(s)
    ensures |ServiceName(s)| > 7 && ServiceName(s)[7] == EighthLetter(s)
  {
    assert |Package(s)| > 7 && Package(s)[7] == EighthLetter(s);
    assert ServiceName(s)[7] == Package(s)[7];
  }

  /** Services have different names. */
  lemma ServiceNamesDiffer(a: Service, b: Service)
    requires a != b
    ensures ServiceName(a) != ServiceName(b)
  {
    SizeOfService(a);
    SizeOfService(b);
    if ServiceSize(a) == ServiceSize(b) {
      SameSize(a, b);
      EighthLetterOf(a);
      EighthLetterOf(b);
    }
  }

  lemma PackageIsPlain(s: Service)
    ensures '/' !in Package(s)
  {
  }

  lemma ObservationTypeIsPlain(s: Service)
    requires BackendOf(s) == Observation
    ensures '/' !in TypeName(s)
  {
  }

  lemma OperationTypeIsPlain(s: Service)
    requires BackendOf(s) == Operation
    ensures '/' !in TypeName(s)
  {
  }

  predicate TenantOrGraph(s: Service) {
    BackendOf(s) == TenantManagement || BackendOf(s) == GraphAuthoring
  }

  lemma TenantOrGraphTypeIsPlain(s: Service)
    requires TenantOrGraph(s)
    ensures '/' !in TypeName(s)
  {
  }

  lemma OtherTypeIsPlain(s: Service)
    requires BackendOf(s) != Observation && BackendOf(s) != Operation && !TenantOrGraph(s)
    ensures '/' !in TypeName(s)
  {
  }

  lemma ServiceNameIsPlain(s: Service)
    ensures '/' !in ServiceName(s)
  {
    PackageIsPlain(s);
    if BackendOf(s) == Observation {
      ObservationTypeIsPlain(s);
    } else if BackendOf(s) == Operation {
      OperationTypeIsPlain(s);
    } else if TenantOrGraph(s) {
      TenantOrGraphTypeIsPlain(s);
    } else {
      OtherTypeIsPlain(s);
    }
  }

  lemma InternalBindingOk(s: Service)
    ensures EachOk(InternalBinding(s), InternalResolver())
  {
    SizeOfService(s);
    NamesDiffer(BackendOf(s), BackendOf(s));
    InternalDeclares(s, GetEvent);
    InternalDescriptorOk(s);
  }

  lemma InternalDescriptorOk(s: Service)
    ensures DescriptorOk(InternalBinding(s), InternalResolver())
  {
    EveryServiceIsBound(s);
    var b :| 0 <= b < |BOUND| && BOUND[b] == s;
    assert ServiceName(BOUND[b]) in InternalResolver();
  }

  lemma InternalBindingsOk()
    ensures BindingsOk(InternalBindings(), InternalResolver()) && PlainNames(InternalResolver())
  {
    var bindings, resolver := InternalBindings(), InternalResolver();
    forall name | name in resolver ensures '/' !in name {
      var i :| 0 <= i < |BOUND| && name == ServiceName(BOUND[i]);
      ServiceNameIsPlain(BOUND[i]);
    }
    forall i | 0 <= i < |bindings| ensures EachOk(bindings[i], resolver) {
      InternalBindingOk(BOUND[i]);
    }
    forall i, j | 0 <= i < j < |bindings|
      ensures bindings[i].service != bindings[j].service && bindings[i].policies.Keys !! bindings[j].policies.Keys
    {
      BoundOnce(i, j);
      ServiceNamesDiffer(BOUND[i], BOUND[j]);
      ProceduresOfDifferentServices(bindings[i], bindings[j], resolver);
    }
  }

  lemma BoundOnce(i: nat, j: nat)
    requires i < j < |BOUND|
    ensures BOUND[i] != BOUND[j]
  {
  }

  lemma InternalIsServed(s: Service, m: Method)
    ensures var p := ProcedureOf(ServiceName(s), MethodName(m));
            p in AllEntries(InternalBindings()) && AllEntries(InternalBindings())[p].service
  {
    EveryServiceIsBound(s);
    InternalDeclares(s, m);
    var b :| 0 <= b < |BOUND| && BOUND[b] == s;
    InternalEntry(b, ProcedureOf(ServiceName(s), MethodName(m)));
  }

  lemma InternalEntry(b: nat, p: string)
    requires b < |BOUND| && p in InternalBinding(BOUND[b]).policies && InternalBinding(BOUND[b]).policies[p].level.Internal?
    ensures p in AllEntries(InternalBindings()) && AllEntries(InternalBindings())[p].service
  {
    InternalBindingsOk();
    assert InternalBindings()[b] == InternalBinding(BOUND[b]);
    EntryComesFromItsBinding(InternalBindings(), InternalResolver(), b, p);
  }

  lemma InternalDeclares(s: Service, m: Method)
    ensures ProcedureOf(ServiceName(s), MethodName(m)) in InternalBinding(s).policies
    ensures InternalBinding(s).policies[ProcedureOf(ServiceName(s), MethodName(m))] == Registry.Policy.Policy(Level.Internal, [], [])
  {
    assert METHODS[0] == GetEvent && METHODS[1] == GetCurrentRevision && METHODS[2] == GetObservationPointMappings
           && METHODS[3] == GetQrLocations && METHODS[4] == RequestProposalDelivery && METHODS[5] == RecordFeedbackValues
           && METHODS[6] == ListStaffMessages && METHODS[7] == GetDisplayNames && METHODS[8] == GetGuideMapLayout
           && METHODS[9] == GetGuestSnapshot && METHODS[10] == ReportMeasurements;
    var n :| 0 <= n < |METHODS| && METHODS[n] == m;
    assert ProcedureOf(ServiceName(s), Rpcs()[n].name) in Declared(ServiceName(s), Rpcs());
  }

  /** With every method internal and declared everywhere, the catalog's table and its edges are both accepted. */
  lemma ShippedCatalogIsAcceptable()
    ensures CatalogBindings(InternalBindings()) && PlainNames(InternalResolver())
    ensures WellFormed(InternalBindings(), [], InternalResolver())
    ensures EdgesOk(Edges(), Introspected(AllEntries(InternalBindings()), Elements([])))
  {
    InternalBindingsOk();
    InternalRowsAreServed([]);
    ShippedEdgesAcceptedExactlyWhen(InternalBindings(), [], InternalResolver());
  }

  lemma InternalRowsAreServed(listed: seq<string>)
    ensures forall i :: 0 <= i < |ROWS| ==> RowIsServed(Introspected(AllEntries(InternalBindings()), Elements(listed)), ROWS[i])
  {
    forall i | 0 <= i < |ROWS| ensures RowIsServed(Introspected(AllEntries(InternalBindings()), Elements(listed)), ROWS[i]) {
      InternalIsServed(ROWS[i].service, ROWS[i].rpc);
    }
  }
}
