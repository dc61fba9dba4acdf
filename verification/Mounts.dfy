/**
 What is served where: the destinations file checked against the table (internal/registry/destinations.go) and
 the forwarders mounted per service (internal/infra/connect/forward/mount.go). Together with the table they make
 the errors left for requests unreachable.
 */
module Mounts {
  import opened Common
  import opened Registry
  import opened Text

  /** Destination ID to URL text. */
  type Destinations = map<string, string>

  datatype Error = MissingDestination | UnusedDestination | MissingMount | UnboundMount | DuplicateMount

  /** The destinations the table refers to. */
  function Referenced(entries: Entries): set<string> {
    set p | p in entries :: entries[p].destination
  }

  method CheckDestinations(entries: Entries, destinations: Destinations) returns (errs: seq<Error>)
    ensures errs == [] <==> destinations.Keys == Referenced(entries)
  {
    errs := [];
    var pending := Referenced(entries);
    while pending != {}
      invariant pending <= Referenced(entries)
      invariant errs == [] <==> Referenced(entries) - pending <= destinations.Keys
      decreases pending
    {
      var id :| id in pending;
      pending := pending - {id};
      if id !in destinations {
        errs := errs + [MissingDestination];
      }
    }
    ghost var missing := errs != [];
    pending := destinations.Keys;
    while pending != {}
      invariant pending <= destinations.Keys
      invariant errs == [] <==> !missing && destinations.Keys - pending <= Referenced(entries)
      decreases pending
    {
      var id :| id in pending;
      pending := pending - {id};
      if id !in Referenced(entries) {
        errs := errs + [UnusedDestination];
      }
    }
  }

  /** strings.TrimRight(url, "/"). */
  function BaseURL(url: string): string {
    if url != "" && url[|url| - 1] == '/' then BaseURL(url[..|url| - 1]) else url
  }

  /** The base is the URL without the slashes at its end. */
  ghost predicate Trimmed(url: string, base: string) {
    && (base == "" || base[|base| - 1] != '/')
    && base <= url && forall i :: |base| <= i < |url| ==> url[i] == '/'
  }

  lemma {:induction false} BaseURLTrims(url: string, base: string)
    ensures Trimmed(url, base) <==> base == BaseURL(url)
    decreases |url|
  {
    if url != "" && url[|url| - 1] == '/' {
      var front := url[..|url| - 1];
      BaseURLTrims(front, base);
      if Trimmed(url, base) {
        assert |base| < |url|;
      }
    } else if Trimmed(url, base) {
      assert |base| == |url| && base == url;
    }
  }

  function Prefix(service: string): string {
    "/" + service + "/"
  }

  /** The destination of every bound service; the last binding of a service wins. */
  function Bound(bindings: seq<Binding>): map<string, string> {
    if bindings == [] then map[]
    else var last := bindings[|bindings| - 1]; Bound(bindings[..|bindings| - 1])[last.service := last.destination]
  }

  /** The base URL the forwarder of a service is mounted with. */
  function Target(bound: map<string, string>, destinations: Destinations, service: string): string {
    if service in bound && bound[service] in destinations then BaseURL(destinations[bound[service]]) else ""
  }

  method IndexMounts(mounts: seq<string>) returns (mounted: Option<set<string>>)
    ensures mounted.Some? <==> Distinct(mounts)
    ensures mounted.Some? ==> mounted.value == Elements(mounts)
  {
    var indexed: set<string> := {};
    for i := 0 to |mounts|
      invariant Distinct(mounts[..i]) && indexed == Elements(mounts[..i])
    {
      assert mounts[..i + 1] == mounts[..i] + [mounts[i]];
      if mounts[i] in indexed {
        ghost var j :| 0 <= j < i && mounts[..i][j] == mounts[i];
        assert mounts[j] == mounts[i];
        return None;
      }
      indexed := indexed + {mounts[i]};
    }
    assert mounts[..|mounts|] == mounts;
    return Some(indexed);
  }

  method CheckCoverage(bound: map<string, string>, mounted: set<string>) returns (errs: seq<Error>)
    ensures errs == [] <==> bound.Keys == mounted
  {
    errs := [];
    var pending := bound.Keys;
    while pending != {}
      invariant pending <= bound.Keys
      invariant errs == [] <==> bound.Keys - pending <= mounted
      decreases pending
    {
      var service :| service in pending;
      pending := pending - {service};
      if service !in mounted {
        errs := errs + [MissingMount];
      }
    }
    ghost var missing := errs != [];
    pending := mounted;
    while pending != {}
      invariant pending <= mounted
      invariant errs == [] <==> !missing && mounted - pending <= bound.Keys
      decreases pending
    {
      var service :| service in pending;
      pending := pending - {service};
      if service !in bound {
        errs := errs + [UnboundMount];
      }
    }
  }

  /** One handler per service, under its own prefix. */
  ghost predicate Mounted(handlers: map<string, string>, bound: map<string, string>, destinations: Destinations, services: set<string>) {
    && (forall s :: s in services ==> Prefix(s) in handlers && handlers[Prefix(s)] == Target(bound, destinations, s))
    && forall prefix :: prefix in handlers ==> exists s :: s in services && prefix == Prefix(s)
  }

  method Handlers(bindings: seq<Binding>, destinations: Destinations, mounts: seq<string>)
    returns (handlers: Result<map<string, string>, Error>)
    ensures handlers.Ok? <==>
            && Distinct(mounts) && Elements(mounts) == Bound(bindings).Keys
            && forall s :: s in Bound(bindings) ==> Bound(bindings)[s] in destinations
    ensures handlers == Err(MissingDestination) ==> exists s :: s in Bound(bindings) && Bound(bindings)[s] !in destinations
    ensures handlers.Ok? ==> Mounted(handlers.value, Bound(bindings), destinations, Bound(bindings).Keys)
  {
    var bound: map<string, string> := map[];
    for i := 0 to |bindings|
      invariant bound == Bound(bindings[..i])
    {
      assert bindings[..i + 1][..i] == bindings[..i];
      bound := bound[bindings[i].service := bindings[i].destination];
    }
    assert bindings[..|bindings|] == bindings;
    var mounted := IndexMounts(mounts);
    if mounted.None? {
      return Err(DuplicateMount);
    }
    var errs := CheckCoverage(bound, mounted.value);
    if errs != [] {
      return Err(if MissingMount in errs then MissingMount else UnboundMount);
    }
    var built: map<string, string> := map[];
    var pending := mounted.value;
    while pending != {}
      invariant pending <= bound.Keys
      invariant forall s :: s in bound && s !in pending ==> bound[s] in destinations
      invariant Mounted(built, bound, destinations, bound.Keys - pending)
      decreases pending
    {
      var service :| service in pending;
      if bound[service] !in destinations {
        return Err(MissingDestination);
      }
      MountOneMore(built, bound, destinations, bound.Keys - pending, service);
      built := built[Prefix(service) := BaseURL(destinations[bound[service]])];
      pending := pending - {service};
      assert bound.Keys - pending == (bound.Keys - (pending + {service})) + {service};
    }
    return Ok(built);
  }

  lemma PrefixInjective(s: string, s': string)
    ensures Prefix(s) == Prefix(s') <==> s == s'
  {
    assert Prefix(s)[1..|Prefix(s)| - 1] == s;
    assert Prefix(s')[1..|Prefix(s')| - 1] == s';
  }

  lemma MountOneMore(handlers: map<string, string>, bound: map<string, string>, destinations: Destinations, services: set<string>, service: string)
    requires Mounted(handlers, bound, destinations, services) && service in bound && bound[service] in destinations
    ensures Mounted(handlers[Prefix(service) := Target(bound, destinations, service)], bound, destinations, services + {service})
  {
    forall s ensures Prefix(s) == Prefix(service) <==> s == service {
      PrefixInjective(s, service);
    }
  }

  // ----- What the start-up checks make true -----

  /** Full names of linked descriptors are dotted: they hold no slash. */
  ghost predicate PlainNames(resolver: Resolver) {
    forall s :: s in resolver ==> '/' !in s
  }

  /** The prefix of one service is a prefix of a procedure of another only if they are the same service. */
  lemma PrefixOfProcedure(s: string, s': string, rpc: string)
    requires '/' !in s && '/' !in s'
    ensures Prefix(s) <= ProcedureOf(s', rpc) <==> s == s'
  {
    var p, procedure := Prefix(s), ProcedureOf(s', rpc);
    assert procedure[1..] == s' + ("/" + rpc);
    UntilOf(s', "/" + rpc, '/');
    if p <= procedure {
      assert procedure[1..] == s + ("/" + procedure[|p|..]);
      UntilOf(s, "/" + procedure[|p|..], '/');
    }
    if s == s' {
      assert procedure == p + rpc;
    }
  }

  lemma {:induction false} BoundToTheBinding(bindings: seq<Binding>, i: nat)
    requires i < |bindings|
    requires forall j, k :: 0 <= j < k < |bindings| ==> bindings[j].service != bindings[k].service
    ensures bindings[i].service in Bound(bindings) && Bound(bindings)[bindings[i].service] == bindings[i].destination
  {
    if i < |bindings| - 1 {
      BoundToTheBinding(bindings[..|bindings| - 1], i);
    }
  }

  lemma {:induction false} BoundServices(bindings: seq<Binding>)
    ensures forall s :: s in Bound(bindings) ==> exists i :: 0 <= i < |bindings| && bindings[i].service == s
  {
    if bindings != [] {
      var front := bindings[..|bindings| - 1];
      BoundServices(front);
      forall s | s in Bound(bindings) ensures exists i :: 0 <= i < |bindings| && bindings[i].service == s {
        if s in Bound(front) {
          var i :| 0 <= i < |front| && front[i].service == s;
          assert bindings[i].service == s;
        } else {
          assert bindings[|front|].service == s;
        }
      }
    }
  }

  /** Once the table is built and the destinations are checked, every bound service has a configured destination. */
  lemma NoMissingDestination(bindings: seq<Binding>, listed: seq<string>, resolver: Resolver, destinations: Destinations, s: string)
    requires WellFormed(bindings, listed, resolver)
    requires destinations.Keys == Referenced(Introspected(AllEntries(bindings), Elements(listed)))
    requires s in Bound(bindings)
    ensures Bound(bindings)[s] in destinations
  {
    BoundServices(bindings);
    var i :| 0 <= i < |bindings| && bindings[i].service == s;
    BoundToTheBinding(bindings, i);
    assert EachOk(bindings[i], resolver);
    var p :| p in bindings[i].policies;
    EntryComesFromItsBinding(bindings, resolver, i, p);
    var entries := Introspected(AllEntries(bindings), Elements(listed));
    assert entries[p].destination == bindings[i].destination;
    assert entries[p].destination in Referenced(entries);
  }

  /**
   After the start-up checks every registered procedure lies under exactly one mounted prefix, and the backend
   mounted there is the destination its entry names, which is also the audience of the tokens issued for it.
   */
  lemma ServedByOneBackend(bindings: seq<Binding>, listed: seq<string>, resolver: Resolver, destinations: Destinations,
                           handlers: map<string, string>, p: string)
    requires WellFormed(bindings, listed, resolver) && PlainNames(resolver)
    requires destinations.Keys == Referenced(Introspected(AllEntries(bindings), Elements(listed)))
    requires Mounted(handlers, Bound(bindings), destinations, Bound(bindings).Keys)
    requires p in Introspected(AllEntries(bindings), Elements(listed))
    ensures var entry := Introspected(AllEntries(bindings), Elements(listed))[p];
            && entry.destination in destinations
            && exists prefix :: prefix in handlers && prefix <= p && Trimmed(destinations[entry.destination], handlers[prefix])
                 && forall other :: other in handlers && other <= p ==> other == prefix
  {
    EntriesAreTheDeclaredMethods(bindings, listed, resolver, p);
    var i, n :| DeclaresAt(bindings, resolver, i, n, p);
    var s, rpc := bindings[i].service, resolver[bindings[i].service].methods[n].name;
    assert EachOk(bindings[i], resolver);
    assert p in Declared(s, resolver[s].methods);
    EntryComesFromItsBinding(bindings, resolver, i, p);
    BoundToTheBinding(bindings, i);
    NoMissingDestination(bindings, listed, resolver, destinations, s);
    PrefixOfProcedure(s, s, rpc);
    assert Prefix(s) in handlers && handlers[Prefix(s)] == Target(Bound(bindings), destinations, s);
    BaseURLTrims(destinations[bindings[i].destination], handlers[Prefix(s)]);
    forall other | other in handlers && other <= p ensures other == Prefix(s) {
      var s' :| s' in Bound(bindings) && other == Prefix(s');
      BoundServices(bindings);
      var j :| 0 <= j < |bindings| && bindings[j].service == s';
      assert EachOk(bindings[j], resolver);
      PrefixOfProcedure(s', s, rpc);
    }
  }

  /** With plain names, two services never declare the same procedure, so that error is unreachable. */
  lemma ProceduresOfDifferentServices(b: Binding, b': Binding, resolver: Resolver)
    requires PlainNames(resolver) && DescriptorOk(b, resolver) && DescriptorOk(b', resolver) && b.service != b'.service
    ensures b.policies.Keys !! b'.policies.Keys
  {
    var methods, methods' := resolver[b.service].methods, resolver[b'.service].methods;
    forall p | p in b.policies ensures p !in b'.policies {
      assert p in Declared(b.service, methods);
      var n :| 0 <= n < |methods| && p == ProcedureOf(b.service, methods[n].name);
      PrefixOfProcedure(b.service, b.service, methods[n].name);
      if p in b'.policies {
        assert p in Declared(b'.service, methods');
        var n' :| 0 <= n' < |methods'| && p == ProcedureOf(b'.service, methods'[n'].name);
        PrefixOfProcedure(b.service, b'.service, methods'[n'].name);
      }
    }
  }
}
