/**
  The newer catalog reconciliation: `~`-delimited entry IDs that parse back
  into their components, per-service registration with a cleanup scoped to
  that service, and a full pass that ends with a global cleanup.
 */
module ServiceDNS {
  import opened Wrappers
  import opened GoStrings
  import opened Consul
  import opened ServiceTypes
  import opened CatalogSpec

  /** Scope value that makes `cleanDNS` consider every managed entry. */
  const AllServices: string := ""

  lemma TildeCount(a: string, b: string)
    ensures Count(a + "~" + b, '~') == Count(a, '~') + 1 + Count(b, '~')
  {
    CountConcat(a + "~", b, '~');
    CountConcat(a, "~", '~');
  }

  /** `generateServiceID`: `svc~<service>~<port>~<ip>`, which always holds three separators. */
  function GenerateServiceID(serviceName: string, portName: string, ipAddress: string): (id: string)
    ensures Count(id, '~') >= 3
  {
    TildeCount(portName, ipAddress);
    TildeCount(serviceName, portName + "~" + ipAddress);
    TildeCount("svc", serviceName + "~" + (portName + "~" + ipAddress));
    "svc" + "~" + (serviceName + "~" + (portName + "~" + ipAddress))
  }

  /** The four results of `parseServiceID`: the components and the error, if any. */
  datatype ParsedID = ParsedID(serviceName: string, portName: string, ipAddress: string, err: Option<string>)

  /**
    `parseServiceID`: split into at most four `~`-separated parts and return the
    last three; fails, with all three components empty, when there are fewer
    than four parts. The first part is not compared with `svc`.
   */
  function ParseServiceID(id: string): (r: ParsedID)
    ensures r.err.Some? <==> Count(id, '~') < 3
    ensures r.err.Some? ==> r.serviceName == "" && r.portName == "" && r.ipAddress == ""
    ensures r.err.Some? ==> r.err == Some("Cannot parse service ID '" + id + "'")
    ensures r.err.None? ==> '~' !in r.serviceName && '~' !in r.portName
  {
    var s := SplitN(id, '~', 4);
    if |s| != 4 then
      ParsedID("", "", "", Some("Cannot parse service ID '" + id + "'"))
    else
      ParsedID(s[1], s[2], s[3], None)
  }

  /**
    An ID of the form `head~name~rest`, with `rest` holding a further `~` and
    neither `head` nor `name` holding one, parses, and its service name is `name`.
   */
  lemma ParseNameOf(head: string, serviceName: string, rest: string)
    requires '~' !in head && '~' !in serviceName && '~' in rest
    ensures ParseServiceID(head + "~" + (serviceName + "~" + rest)).err.None?
    ensures ParseServiceID(head + "~" + (serviceName + "~" + rest)).serviceName == serviceName
  {
    SplitNSecond(head, serviceName, rest, '~');
  }

  /**
    Whatever the first component, an ID whose first three components have no
    `~` parses into its last three components; the IP part keeps any `~` it has.
   */
  lemma ParseJoined(head: string, serviceName: string, portName: string, ipAddress: string)
    requires '~' !in head && '~' !in serviceName && '~' !in portName
    ensures ParseServiceID(head + "~" + (serviceName + "~" + (portName + "~" + ipAddress)))
         == ParsedID(serviceName, portName, ipAddress, None)
  {
    SplitNFour(head, serviceName, portName, ipAddress, '~');
  }

  /** Round trip: a generated ID parses back into its components. */
  lemma ParseGenerated(serviceName: string, portName: string, ipAddress: string)
    requires '~' !in serviceName && '~' !in portName
    ensures ParseServiceID(GenerateServiceID(serviceName, portName, ipAddress))
         == ParsedID(serviceName, portName, ipAddress, None)
  {
    ParseJoined("svc", serviceName, portName, ipAddress);
  }

  /** Different (service, port, IP) triples without `~` in the first two get different IDs. */
  lemma GenerateServiceIDInjective(n1: string, p1: string, ip1: string, n2: string, p2: string, ip2: string)
    requires '~' !in n1 && '~' !in p1 && '~' !in n2 && '~' !in p2
    requires GenerateServiceID(n1, p1, ip1) == GenerateServiceID(n2, p2, ip2)
    ensures n1 == n2 && p1 == p2 && ip1 == ip2
  {
    ParseGenerated(n1, p1, ip1);
    ParseGenerated(n2, p2, ip2);
  }

  /** Whether the scan in `cleanDNS(ids, serviceName)` marks this entry for removal. */
  predicate IsCleanTarget(id: string, e: AgentService, ids: seq<string>, serviceName: string)
  {
    && Managed(e)
    && if serviceName != AllServices then
         var parsed := ParseServiceID(id);
         parsed.err.Some? || (parsed.serviceName == serviceName && id !in ids)
       else
         id !in ids
  }

  /** The entries `cleanDNS(ids, serviceName)` removes from the catalog `c` it lists. */
  ghost function CleanTargets(c: Catalog, ids: seq<string>, serviceName: string): set<string>
  {
    set id | id in c && IsCleanTarget(id, c[id], ids, serviceName)
  }

  /** The per-entry decision of `cleanDNS`, in the order the source takes it. */
  method IsInvalidEntry(id: string, e: AgentService, ids: seq<string>, serviceName: string) returns (invalid: bool)
    ensures invalid == IsCleanTarget(id, e, ids, serviceName)
  {
    invalid := false;
    var managed := InSlice(ServicesTag, e.tags);
    if managed {
      var decided := false;
      if serviceName != AllServices {
        var parsed := ParseServiceID(id);
        if parsed.err.Some? {
          invalid := true;
          decided := true;
        } else if parsed.serviceName != serviceName {
          decided := true;
        }
      }
      if !decided {
        var listed := InSlice(id, ids);
        invalid := !listed;
      }
    }
  }

  /** The first pass of `cleanDNS`: collect the IDs of the invalid entries of a listing. */
  method CollectInvalid(listing: Catalog, ids: seq<string>, serviceName: string) returns (invalidEntries: seq<string>)
    ensures forall x :: x in invalidEntries <==> x in CleanTargets(listing, ids, serviceName)
  {
    invalidEntries := [];
    var todo := listing.Keys;
    while todo != {}
      invariant todo <= listing.Keys
      invariant forall x :: x in invalidEntries <==>
                  x in listing && x !in todo && IsCleanTarget(x, listing[x], ids, serviceName)
      decreases |todo|
    {
      var id :| id in todo;
      todo := todo - {id};
      var invalid := IsInvalidEntry(id, listing[id], ids, serviceName);
      if invalid {
        invalidEntries := invalidEntries + [id];
      }
    }
  }

  /** The second pass of `cleanDNS`: deregister each collected ID in turn. */
  method RemoveAll(consul: ConsulBackend, entries: seq<string>)
    modifies consul
    ensures consul.kv == old(consul.kv)
    ensures consul.agent == old(consul.agent) - (set x | x in entries)
  {
    var i := 0;
    while i < |entries|
      invariant 0 <= i <= |entries|
      invariant consul.kv == old(consul.kv)
      invariant consul.agent == old(consul.agent) - (set x | x in entries[..i])
    {
      assert entries[..i + 1] == entries[..i] + [entries[i]];
      consul.RemoveService(entries[i]);
      i := i + 1;
    }
    assert entries[..i] == entries;
  }

  /** `cleanDNS`: scan the catalog, collect the invalid entries, then remove them. */
  method CleanDNS(consul: ConsulBackend, ids: seq<string>, serviceName: string)
    modifies consul
    ensures consul.kv == old(consul.kv)
    ensures consul.agent == old(consul.agent) - CleanTargets(old(consul.agent), ids, serviceName)
  {
    var listing := consul.ListServices();
    var invalidEntries := CollectInvalid(listing, ids, serviceName);
    RemoveAll(consul, invalidEntries);
    assert (set x | x in invalidEntries) == CleanTargets(listing, ids, serviceName);
  }

  /** `removeServiceDNS`: remove every managed entry of one service. */
  method RemoveServiceDNS(consul: ConsulBackend, serviceName: string)
    modifies consul
    ensures consul.kv == old(consul.kv)
    ensures consul.agent == old(consul.agent) - CleanTargets(old(consul.agent), [], serviceName)
  {
    CleanDNS(consul, [], serviceName);
  }

  /** A cleanup never removes an entry without the managed marker. */
  lemma CleanKeepsUnmanaged(c: Catalog, ids: seq<string>, serviceName: string, id: string)
    requires id in c && !Managed(c[id])
    ensures id !in CleanTargets(c, ids, serviceName)
  {
  }

  /** A global cleanup is a prune of the managed entries not in `ids`. */
  lemma GlobalCleanPrunes(c: Catalog, ids: seq<string>)
    ensures CleanTargets(c, ids, AllServices) == Unregistered(c, set x | x in ids)
  {
  }

  /**
    A scoped cleanup of `S` removes a managed entry when its ID does not parse,
    or parses to `S` and is not in `ids`; a generated ID of another service is
    never removed.
   */
  lemma ScopedCleanTargets(c: Catalog, ids: seq<string>, serviceName: string, id: string)
    requires serviceName != AllServices && id in c && Managed(c[id])
    ensures ParseServiceID(id).err.Some? ==> id in CleanTargets(c, ids, serviceName)
    ensures ParseServiceID(id).err.None? ==>
              (id in CleanTargets(c, ids, serviceName) <==>
                 ParseServiceID(id).serviceName == serviceName && id !in ids)
  {
  }

  /** `removeServiceDNS(S)` leaves the generated entries of every other service alone. */
  lemma RemoveServiceSparesOthers(c: Catalog, serviceName: string, other: string, portName: string, ip: string)
    requires serviceName != AllServices && other != serviceName
    requires '~' !in other
    ensures GenerateServiceID(other, portName, ip) !in CleanTargets(c, [], serviceName)
  {
    assert GenerateServiceID(other, portName, ip) == "svc" + "~" + (other + "~" + (portName + "~" + ip));
    ParseNameOf("svc", other, portName + "~" + ip);
  }

  /** `removeServiceDNS(S)` removes every generated entry of `S` that is managed. */
  lemma RemoveServiceRemovesOwn(c: Catalog, serviceName: string, portName: string, ip: string)
    requires serviceName != AllServices && '~' !in serviceName
    requires GenerateServiceID(serviceName, portName, ip) in c
    requires Managed(c[GenerateServiceID(serviceName, portName, ip)])
    ensures GenerateServiceID(serviceName, portName, ip) in CleanTargets(c, [], serviceName)
  {
    assert GenerateServiceID(serviceName, portName, ip) == "svc" + "~" + (serviceName + "~" + (portName + "~" + ip));
    ParseNameOf("svc", serviceName, portName + "~" + ip);
  }

  /** A cleanup keeps every ID a service just registered, so it commutes with the registration. */
  lemma CleanAfterUpsert(before: Catalog, mid: Catalog, svc: Service, ids: seq<string>, serviceName: string)
    requires Upserted(before, mid, Registrations(GenerateServiceID, svc))
    requires forall id :: id in ids <==> id in ServiceIDs(GenerateServiceID, svc)
    ensures Upserted(before - CleanTargets(before, ids, serviceName),
                     mid - CleanTargets(mid, ids, serviceName),
                     Registrations(GenerateServiceID, svc))
  {
    forall id | id in ServiceIDs(GenerateServiceID, svc)
      ensures id !in CleanTargets(mid, ids, serviceName) && id !in CleanTargets(before, ids, serviceName)
    {
      var p, ip := ServiceIdShape(GenerateServiceID, svc, id);
    }
  }

  /**
    `updateServiceDNS`: register every (endpoint IP, port) entry of the service,
    then clean up within the service's scope; returns the registered IDs.
   */
  method UpdateServiceDNS(consul: ConsulBackend, svc: Service) returns (ids: seq<string>)
    modifies consul
    ensures consul.kv == old(consul.kv)
    ensures forall id :: id in ids <==> id in ServiceIDs(GenerateServiceID, svc)
    ensures Upserted(old(consul.agent) - CleanTargets(old(consul.agent), ids, svc.Name),
                     consul.agent, Registrations(GenerateServiceID, svc))
  {
    ids := RegisterEndpoints(consul, svc, GenerateServiceID);
    ghost var mid := consul.agent;
    CleanDNS(consul, ids, svc.Name);
    CleanAfterUpsert(old(consul.agent), mid, svc, ids, svc.Name);
  }

  /**
    After `updateServiceDNS` for a service with a non-empty name free of `~`, the
    managed entries whose ID parses to that name are exactly the IDs registered.
   */
  lemma UpdatedServiceEntriesExact(before: Catalog, after: Catalog, svc: Service, ids: seq<string>)
    requires svc.Name != AllServices && '~' !in svc.Name
    requires forall id :: id in ids <==> id in ServiceIDs(GenerateServiceID, svc)
    requires Upserted(before - CleanTargets(before, ids, svc.Name), after, Registrations(GenerateServiceID, svc))
    ensures forall id :: (id in after && Managed(after[id]) && ParseServiceID(id).err.None? &&
                          ParseServiceID(id).serviceName == svc.Name) <==> id in ids
  {
    forall id | id in ids
      ensures id in after && Managed(after[id]) && ParseServiceID(id).err.None? &&
              ParseServiceID(id).serviceName == svc.Name
    {
      var p, ip := ServiceIdShape(GenerateServiceID, svc, id);
      ParseNameOf("svc", svc.Name, p + "~" + ip);
      assert Reg(id, after[id]) in Registrations(GenerateServiceID, svc);
    }
  }

  /**
    A service with an empty name turns the per-service cleanup into a global
    one: afterwards the managed entries are exactly the IDs it just registered.
   */
  lemma EmptyNameCleansGlobally(before: Catalog, after: Catalog, svc: Service, ids: seq<string>)
    requires svc.Name == AllServices
    requires forall id :: id in ids <==> id in ServiceIDs(GenerateServiceID, svc)
    requires Upserted(before - CleanTargets(before, ids, svc.Name), after, Registrations(GenerateServiceID, svc))
    ensures forall id :: (id in after && Managed(after[id])) <==> id in ids
  {
    forall id | id in ids ensures id in after && Managed(after[id]) {
      assert Reg(id, after[id]) in Registrations(GenerateServiceID, svc);
    }
  }

  /** Service names that keep per-service cleanups within their own service. */
  ghost predicate DistinctPlainNames(services: ServiceList)
  {
    && WellKeyed(services)
    && forall n :: n in services ==> n != AllServices && '~' !in n
  }

  /** Names and port names free of `~`, so that IDs identify their registration. */
  ghost predicate TildeFree(services: ServiceList)
  {
    && WellKeyed(services)
    && forall n :: n in services ==> '~' !in n && forall p :: p in services[n].Ports ==> '~' !in p
  }

  /** The progress of `updateDNS` after the services in `done` have been handled. */
  ghost predicate SyncProgress(before: Catalog, c: Catalog, services: ServiceList, done: set<string>)
  {
    var regs := RegistrationsOf(GenerateServiceID, services, done);
    && (forall id :: id in c && id !in RegIds(regs) ==> id in before && c[id] == before[id])
    && (forall id :: id in before && !Managed(before[id]) && id !in RegIds(regs) ==> id in c)
    && (forall id :: id in c && id in RegIds(regs) ==> Reg(id, c[id]) in regs)
    && (DistinctPlainNames(services) ==> forall id :: id in RegIds(regs) ==> id in c)
  }

  /** An ID registered for a service in `done` parses back to that service's name. */
  lemma DoneIdParses(services: ServiceList, done: set<string>, id: string)
    requires DistinctPlainNames(services)
    requires id in RegIds(RegistrationsOf(GenerateServiceID, services, done))
    ensures ParseServiceID(id).err.None? && ParseServiceID(id).serviceName in done
  {
    var n, p, ip := RegIdShape(GenerateServiceID, services, done, id);
    assert services[n].Name == n;
    ParseNameOf("svc", n, p + "~" + ip);
  }

  lemma {:induction false} SyncProgressStep(before: Catalog, c: Catalog, c': Catalog, services: ServiceList,
                                            done: set<string>, n: string, svcIds: seq<string>)
    requires SyncProgress(before, c, services, done)
    requires n in services && n !in done
    requires forall id :: id in svcIds <==> id in ServiceIDs(GenerateServiceID, services[n])
    requires Upserted(c - CleanTargets(c, svcIds, services[n].Name), c', Registrations(GenerateServiceID, services[n]))
    ensures SyncProgress(before, c', services, done + {n})
  {
    var svc := services[n];
    var regs := RegistrationsOf(GenerateServiceID, services, done);
    var svcRegs := Registrations(GenerateServiceID, svc);
    RegistrationsOfAdd(GenerateServiceID, services, done, n);
    RegIdsUnion(regs, svcRegs);
    var regs' := RegistrationsOf(GenerateServiceID, services, done + {n});
    assert RegIds(regs') == RegIds(regs) + RegIds(svcRegs);
    if DistinctPlainNames(services) {
      forall id | id in RegIds(regs') ensures id in c' {
        if id !in RegIds(svcRegs) {
          DoneIdParses(services, done, id);
          assert id !in CleanTargets(c, svcIds, svc.Name);
        }
      }
    }
  }

  /** The closing global cleanup turns the progress of a whole pass into convergence. */
  lemma SyncProgressDone(before: Catalog, c: Catalog, services: ServiceList, ids: seq<string>)
    requires SyncProgress(before, c, services, services.Keys)
    requires forall id :: id in ids <==> id in RegIds(AllRegistrations(GenerateServiceID, services))
    ensures Converged(before, c - CleanTargets(c, ids, AllServices), AllRegistrations(GenerateServiceID, services))
    ensures DistinctPlainNames(services) ==>
              Complete(c - CleanTargets(c, ids, AllServices), AllRegistrations(GenerateServiceID, services))
  {
  }

  /** The IDs gathered over a pass grow by the IDs of each service handled. */
  lemma GatheredIdsStep(services: ServiceList, done: set<string>, n: string, ids: seq<string>, svcIds: seq<string>)
    requires n in services
    requires forall id :: id in ids <==> id in RegIds(RegistrationsOf(GenerateServiceID, services, done))
    requires forall id :: id in svcIds <==> id in ServiceIDs(GenerateServiceID, services[n])
    ensures forall id :: id in ids + svcIds <==> id in RegIds(RegistrationsOf(GenerateServiceID, services, done + {n}))
  {
    RegistrationsOfAdd(GenerateServiceID, services, done, n);
    RegIdsUnion(RegistrationsOf(GenerateServiceID, services, done), Registrations(GenerateServiceID, services[n]));
  }

  /** The loop of `updateDNS`: `updateServiceDNS` for every service, gathering the IDs. */
  method UpdateEveryService(consul: ConsulBackend, services: ServiceList) returns (ids: seq<string>)
    modifies consul
    ensures consul.kv == old(consul.kv)
    ensures SyncProgress(old(consul.agent), consul.agent, services, services.Keys)
    ensures forall id :: id in ids <==> id in RegIds(AllRegistrations(GenerateServiceID, services))
  {
    ids := [];
    var todo := services.Keys;
    ghost var done: set<string> := {};
    while todo != {}
      invariant todo <= services.Keys
      invariant forall n :: n in done <==> n in services && n !in todo
      invariant consul.kv == old(consul.kv)
      invariant SyncProgress(old(consul.agent), consul.agent, services, done)
      invariant forall id :: id in ids <==> id in RegIds(RegistrationsOf(GenerateServiceID, services, done))
      decreases |todo|
    {
      var n :| n in todo;
      ghost var current := consul.agent;
      var svcIds := UpdateServiceDNS(consul, services[n]);
      SyncProgressStep(old(consul.agent), current, consul.agent, services, done, n, svcIds);
      GatheredIdsStep(services, done, n, ids, svcIds);
      ids := ids + svcIds;
      todo := todo - {n};
      done := done + {n};
    }
    assert done == services.Keys;
  }

  /**
    `updateDNS`: run `updateServiceDNS` for every service, then clean up
    globally with every ID registered. The catalog converges to the pass's
    registrations; when names are non-empty and free of `~` every registered
    ID is present as well.
   */
  method UpdateDNS(consul: ConsulBackend, services: ServiceList)
    modifies consul
    ensures consul.kv == old(consul.kv)
    ensures Converged(old(consul.agent), consul.agent, AllRegistrations(GenerateServiceID, services))
    ensures DistinctPlainNames(services) ==> Complete(consul.agent, AllRegistrations(GenerateServiceID, services))
  {
    var ids := UpdateEveryService(consul, services);
    ghost var last := consul.agent;
    CleanDNS(consul, ids, AllServices);
    SyncProgressDone(old(consul.agent), last, services, ids);
  }

  /** With names and port names free of `~`, an ID determines its registration. */
  lemma TildeFreeFunctional(services: ServiceList)
    requires TildeFree(services)
    ensures Functional(AllRegistrations(GenerateServiceID, services))
  {
    forall r1, r2 | r1 in AllRegistrations(GenerateServiceID, services) &&
                    r2 in AllRegistrations(GenerateServiceID, services) && r1.id == r2.id
      ensures r1 == r2
    {
      var n1, p1, ip1 := RegistrationShape(GenerateServiceID, services, services.Keys, r1);
      var n2, p2, ip2 := RegistrationShape(GenerateServiceID, services, services.Keys, r2);
      assert services[n1].Name == n1 && services[n2].Name == n2;
      GenerateServiceIDInjective(n1, p1, ip1, n2, p2, ip2);
    }
  }

  /**
    A second `updateDNS` over unchanged services leaves the catalog as the first
    left it, when names are non-empty and names and port names are free of `~`.
   */
  lemma UpdateDNSIdempotent(before: Catalog, a1: Catalog, a2: Catalog, services: ServiceList)
    requires TildeFree(services) && DistinctPlainNames(services)
    requires Converged(before, a1, AllRegistrations(GenerateServiceID, services))
    requires Complete(a1, AllRegistrations(GenerateServiceID, services))
    requires Converged(a1, a2, AllRegistrations(GenerateServiceID, services))
    requires Complete(a2, AllRegistrations(GenerateServiceID, services))
    ensures a2 == a1
  {
    TildeFreeFunctional(services);
    ConvergedIdempotent(before, a1, a2, AllRegistrations(GenerateServiceID, services));
  }

  /** After `updateDNS`, every managed entry has an ID that parses: unparsable managed entries are pruned. */
  lemma ConvergedIdsParse(before: Catalog, after: Catalog, services: ServiceList, id: string)
    requires Converged(before, after, AllRegistrations(GenerateServiceID, services))
    requires id in after && Managed(after[id])
    ensures ParseServiceID(id).err.None?
  {
    var n, p, ip := RegIdShape(GenerateServiceID, services, services.Keys, id);
  }
}
