/**
  Catalog convergence shared by both variants: the entries one service
  contributes (one per endpoint IP and port name), the registration loop that
  upserts them, and what a converged catalog looks like. The ID scheme is a
  parameter, because the two variants derive IDs differently.
 */
module CatalogSpec {
  import opened Consul
  import opened ServiceTypes

  /** How a variant derives an entry ID from (service name, port name, IP). */
  type IdScheme = (string, string, string) -> string

  /** One registration: the ID and the entry registered under it. */
  datatype Reg = Reg(id: string, entry: AgentService)

  /** Whether an entry carries the managed marker. */
  predicate Managed(e: AgentService)
  {
    ServicesTag in e.tags
  }

  /** The entry registered for one port of one endpoint: name `<svc>-<port>`, tagged as managed. */
  function EntryFor(svc: Service, portName: string, ip: string): (e: AgentService)
    requires portName in svc.Ports
    ensures Managed(e) && e.tags == [ServicesTag]
    ensures e.address == ip && e.port == svc.Ports[portName]
    ensures e.service == svc.Name + "-" + portName
  {
    AgentService(svc.Name + "-" + portName, ip, svc.Ports[portName], [ServicesTag])
  }

  /** The registrations of one service: every (endpoint IP, port name) pair. */
  ghost function Registrations(idOf: IdScheme, svc: Service): set<Reg>
  {
    set ip, p | ip in svc.Endpoints && p in svc.Ports :: Reg(idOf(svc.Name, p, ip), EntryFor(svc, p, ip))
  }

  ghost function RegIds(regs: set<Reg>): set<string>
  {
    set r | r in regs :: r.id
  }

  /** The IDs one service registers. */
  ghost function ServiceIDs(idOf: IdScheme, svc: Service): set<string>
  {
    RegIds(Registrations(idOf, svc))
  }

  /** The registrations of the services listed under `names`. */
  ghost function RegistrationsOf(idOf: IdScheme, services: ServiceList, names: set<string>): set<Reg>
  {
    set n, r | n in names && n in services && r in Registrations(idOf, services[n]) :: r
  }

  ghost function AllRegistrations(idOf: IdScheme, services: ServiceList): set<Reg>
  {
    RegistrationsOf(idOf, services, services.Keys)
  }

  /** Managed entries of `c` whose ID is not in `keep`: what a global prune removes. */
  ghost function Unregistered(c: Catalog, keep: set<string>): set<string>
  {
    set id | id in c && Managed(c[id]) && id !in keep
  }

  /** Each ID is registered with one entry only. */
  ghost predicate Functional(regs: set<Reg>)
  {
    forall r1, r2 :: r1 in regs && r2 in regs && r1.id == r2.id ==> r1 == r2
  }

  /**
    `after` is `before` with every registration of `regs` applied: registered IDs
    hold one of their registrations, every other entry is untouched.
   */
  ghost predicate Upserted(before: Catalog, after: Catalog, regs: set<Reg>)
  {
    && after.Keys == before.Keys + RegIds(regs)
    && forall id :: id in after ==>
         if id in RegIds(regs) then Reg(id, after[id]) in regs else after[id] == before[id]
  }

  /**
    What a full catalog sync promises about `after`, given the catalog `before`
    it started from and the registrations `regs` the pass made: no managed entry
    outside `regs`, registered IDs hold one of their registrations, every other
    entry is an untouched entry of `before`, and no unmanaged entry of `before`
    outside `regs` is lost.
   */
  ghost predicate Converged(before: Catalog, after: Catalog, regs: set<Reg>)
  {
    && (forall id :: id in after && Managed(after[id]) ==> id in RegIds(regs))
    && (forall id :: id in after && id in RegIds(regs) ==> Reg(id, after[id]) in regs)
    && (forall id :: id in after && id !in RegIds(regs) ==> id in before && after[id] == before[id])
    && (forall id :: id in before && !Managed(before[id]) && id !in RegIds(regs) ==> id in after)
  }

  /** Every registered ID is present. */
  ghost predicate Complete(after: Catalog, regs: set<Reg>)
  {
    forall id :: id in RegIds(regs) ==> id in after
  }

  lemma UpsertStep(before: Catalog, after: Catalog, regs: set<Reg>, r: Reg)
    requires Upserted(before, after, regs)
    ensures Upserted(before, after[r.id := r.entry], regs + {r})
  {
    assert RegIds(regs + {r}) == RegIds(regs) + {r.id};
  }

  /** Every registration a service makes carries the managed marker. */
  lemma RegistrationsManaged(idOf: IdScheme, services: ServiceList)
    ensures forall r :: r in AllRegistrations(idOf, services) ==> Managed(r.entry)
  {
  }

  /** Registering, then pruning the managed entries not registered, converges. */
  lemma PruneAfterUpsert(before: Catalog, mid: Catalog, regs: set<Reg>)
    requires Upserted(before, mid, regs)
    ensures Converged(before, mid - Unregistered(mid, RegIds(regs)), regs)
    ensures Complete(mid - Unregistered(mid, RegIds(regs)), regs)
  {
  }

  /**
    In a converged, complete catalog whose registrations are all managed, the
    managed IDs are exactly the registered IDs.
   */
  lemma ConvergedManagedExactly(before: Catalog, after: Catalog, regs: set<Reg>)
    requires Converged(before, after, regs) && Complete(after, regs)
    requires forall r :: r in regs ==> Managed(r.entry)
    ensures forall id :: (id in after && Managed(after[id])) <==> id in RegIds(regs)
  {
    forall id | id in RegIds(regs)
      ensures id in after && Managed(after[id])
    {
      assert Reg(id, after[id]) in regs;
    }
  }

  /** When IDs are not shared, the outcome of a full sync is unique. */
  lemma {:induction false} ConvergedUnique(before: Catalog, a1: Catalog, a2: Catalog, regs: set<Reg>)
    requires Functional(regs)
    requires Converged(before, a1, regs) && Complete(a1, regs)
    requires Converged(before, a2, regs) && Complete(a2, regs)
    ensures a1 == a2
  {
    forall id | id in a1 ensures id in a2 && a2[id] == a1[id] {
      if id in RegIds(regs) {
        assert Reg(id, a1[id]) in regs && Reg(id, a2[id]) in regs;
      } else {
        assert !Managed(before[id]);
      }
    }
    forall id | id in a2 ensures id in a1 {
      if id !in RegIds(regs) {
        assert !Managed(before[id]);
      }
    }
  }

  /** A second full sync with the same registrations leaves the catalog as the first left it. */
  lemma {:induction false} ConvergedIdempotent(before: Catalog, a1: Catalog, a2: Catalog, regs: set<Reg>)
    requires Functional(regs)
    requires Converged(before, a1, regs) && Complete(a1, regs)
    requires Converged(a1, a2, regs) && Complete(a2, regs)
    ensures a2 == a1
  {
    assert Converged(a1, a1, regs);
    ConvergedUnique(a1, a1, a2, regs);
  }

  /** What a registration of the services under `names` is made of. */
  lemma RegistrationShape(idOf: IdScheme, services: ServiceList, names: set<string>, r: Reg)
    returns (n: string, p: string, ip: string)
    requires r in RegistrationsOf(idOf, services, names)
    ensures n in names && n in services && p in services[n].Ports && ip in services[n].Endpoints
    ensures r == Reg(idOf(services[n].Name, p, ip), EntryFor(services[n], p, ip))
  {
    n :| n in names && n in services && r in Registrations(idOf, services[n]);
    p, ip :| p in services[n].Ports && ip in services[n].Endpoints &&
             r == Reg(idOf(services[n].Name, p, ip), EntryFor(services[n], p, ip));
  }

  /** What a registered ID of the services under `names` is made of. */
  lemma RegIdShape(idOf: IdScheme, services: ServiceList, names: set<string>, id: string)
    returns (n: string, p: string, ip: string)
    requires id in RegIds(RegistrationsOf(idOf, services, names))
    ensures n in names && n in services && p in services[n].Ports && ip in services[n].Endpoints
    ensures id == idOf(services[n].Name, p, ip)
  {
    var r :| r in RegistrationsOf(idOf, services, names) && r.id == id;
    n, p, ip := RegistrationShape(idOf, services, names, r);
  }

  /** What an ID registered by one service is made of. */
  lemma ServiceIdShape(idOf: IdScheme, svc: Service, id: string) returns (p: string, ip: string)
    requires id in ServiceIDs(idOf, svc)
    ensures p in svc.Ports && ip in svc.Endpoints && id == idOf(svc.Name, p, ip)
  {
    var r :| r in Registrations(idOf, svc) && r.id == id;
    p, ip :| p in svc.Ports && ip in svc.Endpoints && r == Reg(idOf(svc.Name, p, ip), EntryFor(svc, p, ip));
  }

  /** Adding one service to the processed names adds its registrations. */
  lemma RegistrationsOfAdd(idOf: IdScheme, services: ServiceList, names: set<string>, n: string)
    requires n in services
    ensures RegistrationsOf(idOf, services, names + {n}) ==
            RegistrationsOf(idOf, services, names) + Registrations(idOf, services[n])
  {
  }

  /** Handling one more service extends a pass's upserts and gathered IDs by that service's. */
  lemma UpsertServiceStep(idOf: IdScheme, before: Catalog, current: Catalog, after: Catalog,
                          services: ServiceList, done: set<string>, n: string, ids: seq<string>, gathered: set<string>)
    requires n in services
    requires Upserted(before, current, RegistrationsOf(idOf, services, done))
    requires Upserted(current, after, Registrations(idOf, services[n]))
    requires forall id :: id in gathered <==> id in RegIds(RegistrationsOf(idOf, services, done))
    requires forall id :: id in ids <==> id in ServiceIDs(idOf, services[n])
    ensures Upserted(before, after, RegistrationsOf(idOf, services, done + {n}))
    ensures forall id :: id in gathered + (set id | id in ids) <==> id in RegIds(RegistrationsOf(idOf, services, done + {n}))
  {
    UpsertCompose(before, current, after, RegistrationsOf(idOf, services, done), Registrations(idOf, services[n]));
    RegistrationsOfAdd(idOf, services, done, n);
    RegIdsUnion(RegistrationsOf(idOf, services, done), Registrations(idOf, services[n]));
  }

  /** Registrations of one endpoint IP: one per port name. */
  ghost function PortRegistrations(idOf: IdScheme, svc: Service, ip: string): set<Reg>
  {
    set p | p in svc.Ports :: Reg(idOf(svc.Name, p, ip), EntryFor(svc, p, ip))
  }

  lemma RegIdsUnion(a: set<Reg>, b: set<Reg>)
    ensures RegIds(a + b) == RegIds(a) + RegIds(b)
  {
  }

  /** Two upsert passes in a row are one upsert pass with both sets of registrations. */
  lemma UpsertCompose(a: Catalog, b: Catalog, c: Catalog, r1: set<Reg>, r2: set<Reg>)
    requires Upserted(a, b, r1) && Upserted(b, c, r2)
    ensures Upserted(a, c, r1 + r2)
  {
    RegIdsUnion(r1, r2);
  }

  /**
    The progress of the port loop for one endpoint IP: the registrations `regs`
    made so far, one for each port no longer in `todo`, are upserted into `c`
    and their IDs are `ids`.
   */
  ghost predicate PortProgress(idOf: IdScheme, svc: Service, ip: string, start: Catalog, c: Catalog,
                               regs: set<Reg>, ids: seq<string>, todo: set<string>)
  {
    && todo <= svc.Ports.Keys
    && regs <= PortRegistrations(idOf, svc, ip)
    && Upserted(start, c, regs)
    && (forall id :: id in ids <==> id in RegIds(regs))
    && (forall p :: p in svc.Ports && p !in todo ==> Reg(idOf(svc.Name, p, ip), EntryFor(svc, p, ip)) in regs)
  }

  lemma PortProgressStep(idOf: IdScheme, svc: Service, ip: string, start: Catalog, c: Catalog,
                         regs: set<Reg>, ids: seq<string>, todo: set<string>, p: string)
    requires PortProgress(idOf, svc, ip, start, c, regs, ids, todo) && p in todo
    ensures var r := Reg(idOf(svc.Name, p, ip), EntryFor(svc, p, ip));
            PortProgress(idOf, svc, ip, start, c[r.id := r.entry], regs + {r}, ids + [r.id], todo - {p})
  {
    var r := Reg(idOf(svc.Name, p, ip), EntryFor(svc, p, ip));
    UpsertStep(start, c, regs, r);
    RegIdsUnion(regs, {r});
  }

  /** The inner loop: register every port of one endpoint IP. */
  method RegisterPorts(consul: ConsulBackend, svc: Service, ip: string, idOf: IdScheme) returns (ids: seq<string>)
    modifies consul
    ensures consul.kv == old(consul.kv)
    ensures Upserted(old(consul.agent), consul.agent, PortRegistrations(idOf, svc, ip))
    ensures forall id :: id in ids <==> id in RegIds(PortRegistrations(idOf, svc, ip))
  {
    ids := [];
    ghost var regs: set<Reg> := {};
    var todo := svc.Ports.Keys;
    while todo != {}
      invariant consul.kv == old(consul.kv)
      invariant PortProgress(idOf, svc, ip, old(consul.agent), consul.agent, regs, ids, todo)
      decreases |todo|
    {
      var p :| p in todo;
      var id := idOf(svc.Name, p, ip);
      PortProgressStep(idOf, svc, ip, old(consul.agent), consul.agent, regs, ids, todo, p);
      consul.AddService(id, svc.Name + "-" + p, ip, svc.Ports[p], [ServicesTag]);
      ids := ids + [id];
      regs := regs + {Reg(id, EntryFor(svc, p, ip))};
      todo := todo - {p};
    }
    assert regs == PortRegistrations(idOf, svc, ip);
  }

  /** Registrations of the first `i` endpoint IPs. */
  ghost function EndpointPrefixRegistrations(idOf: IdScheme, svc: Service, i: nat): set<Reg>
    requires i <= |svc.Endpoints|
  {
    if i == 0 then {}
    else EndpointPrefixRegistrations(idOf, svc, i - 1) + PortRegistrations(idOf, svc, svc.Endpoints[i - 1])
  }

  /** `r` is registered for one of the first `i` endpoint IPs. */
  ghost predicate InEndpointPrefix(idOf: IdScheme, svc: Service, i: nat, r: Reg)
    requires i <= |svc.Endpoints|
  {
    exists j :: 0 <= j < i && r in PortRegistrations(idOf, svc, svc.Endpoints[j])
  }

  lemma InEndpointPrefixStep(idOf: IdScheme, svc: Service, i: nat, r: Reg)
    requires 0 < i <= |svc.Endpoints|
    ensures InEndpointPrefix(idOf, svc, i, r) <==>
              InEndpointPrefix(idOf, svc, i - 1, r) || r in PortRegistrations(idOf, svc, svc.Endpoints[i - 1])
  {
    if InEndpointPrefix(idOf, svc, i, r) {
      var j :| 0 <= j < i && r in PortRegistrations(idOf, svc, svc.Endpoints[j]);
      if j < i - 1 {
        assert InEndpointPrefix(idOf, svc, i - 1, r);
      }
    }
    if InEndpointPrefix(idOf, svc, i - 1, r) {
      var j :| 0 <= j < i - 1 && r in PortRegistrations(idOf, svc, svc.Endpoints[j]);
      assert 0 <= j < i;
    }
    if r in PortRegistrations(idOf, svc, svc.Endpoints[i - 1]) {
      assert 0 <= i - 1 < i;
    }
  }

  lemma {:induction false} EndpointPrefixRegistrationsMembers(idOf: IdScheme, svc: Service, i: nat, r: Reg)
    requires i <= |svc.Endpoints|
    ensures r in EndpointPrefixRegistrations(idOf, svc, i) <==> InEndpointPrefix(idOf, svc, i, r)
  {
    if i > 0 {
      EndpointPrefixRegistrationsMembers(idOf, svc, i - 1, r);
      InEndpointPrefixStep(idOf, svc, i, r);
    }
  }

  lemma EndpointRegistrationsComplete(idOf: IdScheme, svc: Service)
    ensures EndpointPrefixRegistrations(idOf, svc, |svc.Endpoints|) == Registrations(idOf, svc)
  {
    forall r ensures r in EndpointPrefixRegistrations(idOf, svc, |svc.Endpoints|) <==> r in Registrations(idOf, svc) {
      EndpointPrefixRegistrationsMembers(idOf, svc, |svc.Endpoints|, r);
      if r in Registrations(idOf, svc) {
        var ip, p :| ip in svc.Endpoints && p in svc.Ports && r == Reg(idOf(svc.Name, p, ip), EntryFor(svc, p, ip));
        var j :| 0 <= j < |svc.Endpoints| && svc.Endpoints[j] == ip;
        assert r in PortRegistrations(idOf, svc, svc.Endpoints[j]);
      }
    }
  }

  /** Registering one more endpoint IP's ports extends the upserts and the IDs to that IP. */
  lemma EndpointStep(idOf: IdScheme, svc: Service, i: nat, start: Catalog, current: Catalog, after: Catalog,
                     ids: seq<string>, portIds: seq<string>)
    requires i < |svc.Endpoints|
    requires Upserted(start, current, EndpointPrefixRegistrations(idOf, svc, i))
    requires Upserted(current, after, PortRegistrations(idOf, svc, svc.Endpoints[i]))
    requires forall id :: id in ids <==> id in RegIds(EndpointPrefixRegistrations(idOf, svc, i))
    requires forall id :: id in portIds <==> id in RegIds(PortRegistrations(idOf, svc, svc.Endpoints[i]))
    ensures Upserted(start, after, EndpointPrefixRegistrations(idOf, svc, i + 1))
    ensures forall id :: id in ids + portIds <==> id in RegIds(EndpointPrefixRegistrations(idOf, svc, i + 1))
  {
    var prefix := EndpointPrefixRegistrations(idOf, svc, i);
    var ports := PortRegistrations(idOf, svc, svc.Endpoints[i]);
    assert EndpointPrefixRegistrations(idOf, svc, i + 1) == prefix + ports;
    UpsertCompose(start, current, after, prefix, ports);
    RegIdsUnion(prefix, ports);
  }

  /**
    The registration loop: for every endpoint IP and every port name, register
    the entry under `idOf(name, port, ip)`; returns the IDs in registration order.
   */
  method RegisterEndpoints(consul: ConsulBackend, svc: Service, idOf: IdScheme) returns (ids: seq<string>)
    modifies consul
    ensures consul.kv == old(consul.kv)
    ensures Upserted(old(consul.agent), consul.agent, Registrations(idOf, svc))
    ensures forall id :: id in ids <==> id in ServiceIDs(idOf, svc)
  {
    ids := [];
    var i := 0;
    while i < |svc.Endpoints|
      invariant 0 <= i <= |svc.Endpoints|
      invariant consul.kv == old(consul.kv)
      invariant Upserted(old(consul.agent), consul.agent, EndpointPrefixRegistrations(idOf, svc, i))
      invariant forall id :: id in ids <==> id in RegIds(EndpointPrefixRegistrations(idOf, svc, i))
    {
      var ip := svc.Endpoints[i];
      ghost var current := consul.agent;
      var portIds := RegisterPorts(consul, svc, ip, idOf);
      EndpointStep(idOf, svc, i, old(consul.agent), current, consul.agent, ids, portIds);
      ids := ids + portIds;
      i := i + 1;
    }
    EndpointRegistrationsComplete(idOf, svc);
  }
}
