/**
  The first version of the services plugin (`plugins/services/services.go`):
  one sync pass flattens the cluster's services and endpoints into exported
  records, resyncs the KV tree, registers one catalog entry per (endpoint IP,
  port name) under a `-`-separated ID and then prunes every managed entry
  whose ID was not registered in the pass.
 */
module LegacyServices {
  import opened Wrappers
  import opened GoStrings
  import opened Consul
  import opened Kube
  import opened ServiceTypes
  import opened KVLayout
  import opened CatalogSpec
  import opened ServiceKV
  import opened Plugins

  /** `generateServiceID` of this version: `svc-<service>-<port>-<ip>`. */
  function LegacyServiceID(serviceName: string, portName: string, ipAddress: string): string
  {
    "svc-" + serviceName + "-" + portName + "-" + ipAddress
  }

  // ---------------------------------------------------------------------------
  // Building the exported records
  // ---------------------------------------------------------------------------

  /** Why a sync pass stops before touching Consul: a nil pointer is dereferenced. */
  datatype SyncPanic =
    | NilServiceList              // the database holds no service list yet
    | NilEndpointsList            // the database holds no endpoints list yet
    | NilEndpoints(name: string)  // `GetEndpoints(name)` found no object

  /** The IPs of a list of addresses, in order. */
  function AddressIPs(addresses: seq<EndpointAddress>): (ips: seq<string>)
    ensures |ips| == |addresses|
    ensures forall i :: 0 <= i < |ips| ==> ips[i] == addresses[i].ip
  {
    if addresses == [] then []
    else AddressIPs(addresses[..|addresses| - 1]) + [addresses[|addresses| - 1].ip]
  }

  /** The IPs of every address of every subset, in order: what the nested loop appends. */
  function EndpointIPs(subsets: seq<EndpointSubset>): seq<string>
  {
    if subsets == [] then []
    else EndpointIPs(subsets[..|subsets| - 1]) + AddressIPs(subsets[|subsets| - 1].addresses)
  }

  /** Whether some address of the subset has that IP. */
  ghost predicate Carries(subset: EndpointSubset, ip: string)
  {
    exists j :: 0 <= j < |subset.addresses| && subset.addresses[j].ip == ip
  }

  lemma AddressIPsMembers(subset: EndpointSubset, ip: string)
    ensures ip in AddressIPs(subset.addresses) <==> Carries(subset, ip)
  {
    var ips := AddressIPs(subset.addresses);
    if ip in ips {
      var j :| 0 <= j < |ips| && ips[j] == ip;
      assert subset.addresses[j].ip == ip;
    }
    if Carries(subset, ip) {
      var j :| 0 <= j < |subset.addresses| && subset.addresses[j].ip == ip;
      assert ips[j] == ip;
    }
  }

  /** An IP is exported exactly when some address of some subset carries it. */
  lemma {:induction false} EndpointIPsMembers(subsets: seq<EndpointSubset>, ip: string)
    ensures ip in EndpointIPs(subsets) <==> exists i :: 0 <= i < |subsets| && Carries(subsets[i], ip)
  {
    if subsets != [] {
      var k := |subsets| - 1;
      var init := subsets[..k];
      EndpointIPsMembers(init, ip);
      AddressIPsMembers(subsets[k], ip);
      assert EndpointIPs(subsets) == EndpointIPs(init) + AddressIPs(subsets[k].addresses);
      if ip in EndpointIPs(init) {
        var i :| 0 <= i < |init| && Carries(init[i], ip);
        assert subsets[i] == init[i];
      }
      if exists i :: 0 <= i < |subsets| && Carries(subsets[i], ip) {
        var i :| 0 <= i < |subsets| && Carries(subsets[i], ip);
        if i < k {
          assert init[i] == subsets[i];
        }
      }
    }
  }

  /** The port map the loop over `svc.Spec.Ports` builds: a later port of the same name overwrites. */
  function PortMap(ports: seq<ServicePort>): map<string, int>
  {
    if ports == [] then map[]
    else PortMap(ports[..|ports| - 1])[ports[|ports| - 1].name := ports[|ports| - 1].port]
  }

  /** The port names exported are exactly the names declared. */
  lemma {:induction false} PortMapKeys(ports: seq<ServicePort>, p: string)
    ensures p in PortMap(ports) <==> exists i :: 0 <= i < |ports| && ports[i].name == p
  {
    if ports != [] {
      var init := ports[..|ports| - 1];
      PortMapKeys(init, p);
      if exists i :: 0 <= i < |ports| && ports[i].name == p {
        var i :| 0 <= i < |ports| && ports[i].name == p;
        if i < |init| {
          assert init[i] == ports[i];
        }
      }
      if p in PortMap(init) {
        var i :| 0 <= i < |init| && init[i].name == p;
        assert ports[i] == init[i];
      }
    }
  }

  /** A name's exported port number is that of its last declaration. */
  lemma {:induction false} PortMapLastWins(ports: seq<ServicePort>, i: nat)
    requires i < |ports|
    requires forall j :: i < j < |ports| ==> ports[j].name != ports[i].name
    ensures ports[i].name in PortMap(ports) && PortMap(ports)[ports[i].name] == ports[i].port
  {
    if i < |ports| - 1 {
      var init := ports[..|ports| - 1];
      assert init[i] == ports[i];
      PortMapLastWins(init, i);
    }
  }

  /** The record exported for one service and its endpoints object. */
  function BuildService(svc: KubeService, ep: KubeEndpoints): (se: Service)
    ensures se.Name == svc.name && se.Annotations == svc.annotations
  {
    Service(svc.name, svc.annotations, EndpointIPs(ep.subsets), PortMap(svc.ports))
  }

  /**
    The loop of `Sync` over the service list: each service is exported under its
    name (a later service of the same name overwrites), and the pass stops at
    the first service whose endpoints cannot be found.
   */
  function Exported(services: seq<KubeService>, endpoints: Option<seq<KubeEndpoints>>)
    : Result<ServiceList, SyncPanic>
  {
    if services == [] then Ok(map[])
    else
      var svc := services[|services| - 1];
      match Exported(services[..|services| - 1], endpoints)
      case Err(e) => Err(e)
      case Ok(m) =>
        if endpoints.None? then Err(NilEndpointsList)
        else match GetEndpoints(endpoints.value, svc.name)
          case None => Err(NilEndpoints(svc.name))
          case Some(ep) => Ok(m[svc.name := BuildService(svc, ep)])
  }

  /** Whether every service of the list has an endpoints object. */
  ghost predicate AllHaveEndpoints(services: seq<KubeService>, endpoints: seq<KubeEndpoints>)
  {
    forall i :: 0 <= i < |services| ==> GetEndpoints(endpoints, services[i].name).Some?
  }

  /** Whether some service of the list has that name. */
  ghost predicate Listed(services: seq<KubeService>, n: string)
  {
    exists i :: 0 <= i < |services| && services[i].name == n
  }

  /** The last service of a list is listed, and so is every service of its prefix. */
  lemma ListedSnoc(services: seq<KubeService>, n: string)
    requires services != []
    ensures Listed(services, n) <==> Listed(services[..|services| - 1], n) || services[|services| - 1].name == n
  {
    var init := services[..|services| - 1];
    if Listed(init, n) {
      var i :| 0 <= i < |init| && init[i].name == n;
      assert services[i] == init[i];
    }
    if Listed(services, n) {
      var i :| 0 <= i < |services| && services[i].name == n;
      if i < |init| {
        assert init[i] == services[i];
      }
    }
  }

  /** A successful export of a non-empty list extends the export of its prefix by the last service. */
  lemma ExportedSnoc(services: seq<KubeService>, endpoints: Option<seq<KubeEndpoints>>)
    requires services != [] && Exported(services, endpoints).Ok?
    ensures Exported(services[..|services| - 1], endpoints).Ok?
    ensures endpoints.Some? && GetEndpoints(endpoints.value, services[|services| - 1].name).Some?
    ensures var svc := services[|services| - 1];
            Exported(services, endpoints).value ==
              Exported(services[..|services| - 1], endpoints).value[svc.name :=
                BuildService(svc, GetEndpoints(endpoints.value, svc.name).value)]
  {
  }

  /** A successful export holds one record per service name, stored under that name. */
  lemma {:induction false} ExportedShape(services: seq<KubeService>, endpoints: Option<seq<KubeEndpoints>>)
    requires Exported(services, endpoints).Ok?
    ensures WellKeyed(Exported(services, endpoints).value)
    ensures forall n :: n in Exported(services, endpoints).value <==> Listed(services, n)
  {
    if services != [] {
      var init := services[..|services| - 1];
      ExportedSnoc(services, endpoints);
      ExportedShape(init, endpoints);
      forall n ensures n in Exported(services, endpoints).value <==> Listed(services, n) {
        ListedSnoc(services, n);
      }
    }
  }

  /** The export succeeds exactly when the list is empty or every service has its endpoints. */
  /** Every service of a non-empty list has endpoints iff its prefix's do and its last one does. */
  lemma AllHaveEndpointsSnoc(services: seq<KubeService>, endpoints: seq<KubeEndpoints>)
    requires services != []
    ensures AllHaveEndpoints(services, endpoints) <==>
              AllHaveEndpoints(services[..|services| - 1], endpoints) &&
              GetEndpoints(endpoints, services[|services| - 1].name).Some?
  {
    var init := services[..|services| - 1];
    assert forall i :: 0 <= i < |init| ==> init[i] == services[i];
  }

  /** A non-empty list exports iff its prefix does and its last service has endpoints. */
  lemma ExportedOkSnoc(services: seq<KubeService>, endpoints: Option<seq<KubeEndpoints>>)
    requires services != []
    ensures Exported(services, endpoints).Ok? <==>
              Exported(services[..|services| - 1], endpoints).Ok? && endpoints.Some? &&
              GetEndpoints(endpoints.value, services[|services| - 1].name).Some?
  {
  }

  lemma {:induction false} ExportedOk(services: seq<KubeService>, endpoints: Option<seq<KubeEndpoints>>)
    ensures Exported(services, endpoints).Ok? <==>
              services == [] || (endpoints.Some? && AllHaveEndpoints(services, endpoints.value))
  {
    if services != [] {
      var init := services[..|services| - 1];
      ExportedOk(init, endpoints);
      ExportedOkSnoc(services, endpoints);
      if endpoints.Some? {
        AllHaveEndpointsSnoc(services, endpoints.value);
      }
    }
  }

  /** Service `i` is the first of the list without an endpoints object. */
  ghost predicate FirstMissing(services: seq<KubeService>, endpoints: seq<KubeEndpoints>, i: int)
  {
    && 0 <= i < |services|
    && GetEndpoints(endpoints, services[i].name).None?
    && forall j :: 0 <= j < i ==> GetEndpoints(endpoints, services[j].name).Some?
  }

  lemma FirstMissingPrefix(services: seq<KubeService>, endpoints: seq<KubeEndpoints>, i: int)
    requires services != [] && FirstMissing(services[..|services| - 1], endpoints, i)
    ensures FirstMissing(services, endpoints, i)
  {
    var init := services[..|services| - 1];
    assert forall j :: 0 <= j <= i ==> init[j] == services[j];
  }

  lemma FirstMissingLast(services: seq<KubeService>, endpoints: seq<KubeEndpoints>)
    requires services != [] && AllHaveEndpoints(services[..|services| - 1], endpoints)
    requires GetEndpoints(endpoints, services[|services| - 1].name).None?
    ensures FirstMissing(services, endpoints, |services| - 1)
  {
    var init := services[..|services| - 1];
    assert forall j :: 0 <= j < |init| ==> init[j] == services[j];
  }

  /**
    When the endpoints list exists, a failed export names the first service
    without an endpoints object.
   */
  lemma {:induction false} ExportedFirstMissing(services: seq<KubeService>, endpoints: seq<KubeEndpoints>)
    requires Exported(services, Some(endpoints)).Err?
    ensures exists i :: FirstMissing(services, endpoints, i) &&
              Exported(services, Some(endpoints)) == Err(NilEndpoints(services[i].name))
  {
    var init := services[..|services| - 1];
    var k := |services| - 1;
    if Exported(init, Some(endpoints)).Err? {
      ExportedFirstMissing(init, endpoints);
      var i :| FirstMissing(init, endpoints, i) && Exported(init, Some(endpoints)) == Err(NilEndpoints(init[i].name));
      FirstMissingPrefix(services, endpoints, i);
      assert services[i] == init[i];
    } else {
      ExportedOk(init, Some(endpoints));
      if init == [] {
        assert AllHaveEndpoints(init, endpoints);
      }
      FirstMissingLast(services, endpoints);
    }
  }

  /** The record exported under a name comes from the last service of that name. */
  lemma {:induction false} ExportedLastWins(services: seq<KubeService>, endpoints: Option<seq<KubeEndpoints>>, i: nat)
    requires Exported(services, endpoints).Ok? && i < |services|
    requires forall j :: i < j < |services| ==> services[j].name != services[i].name
    ensures endpoints.Some? && GetEndpoints(endpoints.value, services[i].name).Some?
    ensures services[i].name in Exported(services, endpoints).value
    ensures Exported(services, endpoints).value[services[i].name]
         == BuildService(services[i], GetEndpoints(endpoints.value, services[i].name).value)
  {
    var init := services[..|services| - 1];
    if i < |services| - 1 {
      assert init[i] == services[i];
      ExportedLastWins(init, endpoints, i);
    }
  }

  /** Once a prefix of the list fails, the whole export fails the same way. */
  lemma {:induction false} ExportedErrSticks(services: seq<KubeService>, endpoints: Option<seq<KubeEndpoints>>, i: nat)
    requires i <= |services| && Exported(services[..i], endpoints).Err?
    ensures Exported(services, endpoints) == Exported(services[..i], endpoints)
    decreases |services|
  {
    if i < |services| {
      var init := services[..|services| - 1];
      assert init[..i] == services[..i];
      ExportedErrSticks(init, endpoints, i);
    } else {
      assert services[..i] == services;
    }
  }

  /** The inner loops over subsets and addresses: collect the endpoint IPs. */
  method CollectIPs(subsets: seq<EndpointSubset>) returns (ips: seq<string>)
    ensures ips == EndpointIPs(subsets)
  {
    ips := [];
    var i := 0;
    while i < |subsets|
      invariant 0 <= i <= |subsets|
      invariant ips == EndpointIPs(subsets[..i])
    {
      var addresses := subsets[i].addresses;
      ghost var before := ips;
      var j := 0;
      while j < |addresses|
        invariant 0 <= j <= |addresses|
        invariant ips == before + AddressIPs(addresses[..j])
      {
        assert addresses[..j + 1][..j] == addresses[..j];
        ips := ips + [addresses[j].ip];
        j := j + 1;
      }
      assert addresses[..j] == addresses;
      assert subsets[..i + 1][..i] == subsets[..i];
      i := i + 1;
    }
    assert subsets[..i] == subsets;
  }

  /** The loop over the declared ports: build the port map. */
  method CollectPorts(ports: seq<ServicePort>) returns (m: map<string, int>)
    ensures m == PortMap(ports)
  {
    m := map[];
    var i := 0;
    while i < |ports|
      invariant 0 <= i <= |ports|
      invariant m == PortMap(ports[..i])
    {
      assert ports[..i + 1][..i] == ports[..i];
      m := m[ports[i].name := ports[i].port];
      i := i + 1;
    }
    assert ports[..i] == ports;
  }

  /** What the export loop of `Sync` yields for the database's current lists. */
  function ExportedFromDb(services: Option<seq<KubeService>>, endpoints: Option<seq<KubeEndpoints>>)
    : Result<ServiceList, SyncPanic>
  {
    if services.None? then Err(NilServiceList) else Exported(services.value, endpoints)
  }

  /** The export loop of `Sync`: flatten every service with its endpoints into a record. */
  method ExportServices(db: Database) returns (r: Result<ServiceList, SyncPanic>)
    ensures r == ExportedFromDb(db.services, db.endpoints)
  {
    if db.services.None? {
      return Err(NilServiceList);
    }
    var items := db.services.value;
    var exportedServices: ServiceList := map[];
    var i := 0;
    assert items[..0] == [];
    while i < |items|
      invariant 0 <= i <= |items|
      invariant Exported(items[..i], db.endpoints) == Ok(exportedServices)
    {
      var svc := items[i];
      assert items[..i + 1][..i] == items[..i];
      if db.endpoints.None? {
        ExportedErrSticks(items, db.endpoints, i + 1);
        return Err(NilEndpointsList);
      }
      var ep := GetEndpoints(db.endpoints.value, svc.name);
      if ep.None? {
        ExportedErrSticks(items, db.endpoints, i + 1);
        return Err(NilEndpoints(svc.name));
      }
      var ips := CollectIPs(ep.value.subsets);
      var ports := CollectPorts(svc.ports);
      var se := Service(svc.name, svc.annotations, ips, ports);
      exportedServices := exportedServices[se.Name := se];
      i := i + 1;
    }
    assert items[..i] == items;
    return Ok(exportedServices);
  }

  // ---------------------------------------------------------------------------
  // KV and catalog resync
  // ---------------------------------------------------------------------------

  /** The rewrite phase of this version's `updateKV`: every record put inline. */
  method PutEveryRecord(consul: ConsulBackend, codec: Codec, services: ServiceList)
    requires WellKeyed(services)
    modifies consul
    ensures consul.kv == old(consul.kv) + Written(services, codec.encode)
    ensures consul.agent == old(consul.agent)
  {
    ghost var start := consul.kv;
    var todo := services.Keys;
    ghost var done: set<string> := {};
    while todo != {}
      invariant todo <= services.Keys
      invariant forall n :: n in done <==> n in services && n !in todo
      invariant consul.agent == old(consul.agent)
      invariant consul.kv == start + WrittenOf(services, done, codec.encode)
      decreases |todo|
    {
      var n :| n in todo;
      var svc := services[n];
      PutStep(start, consul.kv, services, done, codec.encode, n);
      assert ServicesRoot + "/" + svc.Name == ServiceKey(n);
      consul.PutKV(ServicesRoot + "/" + svc.Name, codec.encode(svc));
      todo := todo - {n};
      done := done + {n};
    }
    assert done == services.Keys;
  }

  /** `updateKV` of this version: the same pruning, then every record put inline. */
  method UpdateKV(consul: ConsulBackend, codec: Codec, services: ServiceList, listFailed: bool)
    requires WellKeyed(services)
    modifies consul
    ensures consul.kv == KVAfterUpdate(old(consul.kv), ListedKeys(old(consul.kv), listFailed), services, codec.encode)
    ensures consul.agent == old(consul.agent)
  {
    PruneStaleKeys(consul, services, listFailed);
    PutEveryRecord(consul, codec, services);
  }

  /** The registration loop of `updateDNS`: every service's entries, gathering the IDs. */
  method RegisterAll(consul: ConsulBackend, services: ServiceList) returns (servicesListID: set<string>)
    modifies consul
    ensures consul.kv == old(consul.kv)
    ensures Upserted(old(consul.agent), consul.agent, AllRegistrations(LegacyServiceID, services))
    ensures servicesListID == RegIds(AllRegistrations(LegacyServiceID, services))
  {
    servicesListID := {};
    var todo := services.Keys;
    ghost var done: set<string> := {};
    while todo != {}
      invariant todo <= services.Keys
      invariant forall n :: n in done <==> n in services && n !in todo
      invariant consul.kv == old(consul.kv)
      invariant Upserted(old(consul.agent), consul.agent, RegistrationsOf(LegacyServiceID, services, done))
      invariant forall id :: id in servicesListID <==> id in RegIds(RegistrationsOf(LegacyServiceID, services, done))
      decreases |todo|
    {
      var n :| n in todo;
      ghost var current := consul.agent;
      var ids := RegisterEndpoints(consul, services[n], LegacyServiceID);
      UpsertServiceStep(LegacyServiceID, old(consul.agent), current, consul.agent, services, done, n, ids, servicesListID);
      servicesListID := servicesListID + (set id | id in ids);
      todo := todo - {n};
      done := done + {n};
    }
    assert done == services.Keys;
    assert servicesListID == RegIds(RegistrationsOf(LegacyServiceID, services, done));
  }

  /** The IDs pruned so far: the managed, unkept IDs of the listing already visited. */
  ghost predicate PrunedSoFar(removed: set<string>, listing: Catalog, todo: set<string>, keep: set<string>)
  {
    forall id :: id in removed <==> id in listing && id !in todo && Managed(listing[id]) && id !in keep
  }

  /** Visiting one more listed ID prunes it exactly when it is managed and not kept. */
  lemma PrunedSoFarStep(removed: set<string>, listing: Catalog, todo: set<string>, keep: set<string>, k: string)
    requires k in todo && k in listing
    requires PrunedSoFar(removed, listing, todo, keep)
    ensures Managed(listing[k]) && k !in keep ==> PrunedSoFar(removed + {k}, listing, todo - {k}, keep)
    ensures !(Managed(listing[k]) && k !in keep) ==> PrunedSoFar(removed, listing, todo - {k}, keep)
  {
  }

  lemma RemoveOneMore(c: Catalog, removed: set<string>, k: string)
    ensures (c - removed) - {k} == c - (removed + {k})
  {
  }

  /** The prune loop of `updateDNS`: remove each listed managed entry whose ID is not kept. */
  method PruneUnlisted(consul: ConsulBackend, keep: set<string>)
    modifies consul
    ensures consul.kv == old(consul.kv)
    ensures consul.agent == old(consul.agent) - Unregistered(old(consul.agent), keep)
  {
    var listing := consul.ListServices();
    var todo := listing.Keys;
    ghost var removed: set<string> := {};
    while todo != {}
      invariant todo <= listing.Keys
      invariant consul.kv == old(consul.kv)
      invariant consul.agent == listing - removed
      invariant PrunedSoFar(removed, listing, todo, keep)
      decreases |todo|
    {
      var k :| k in todo;
      PrunedSoFarStep(removed, listing, todo, keep, k);
      var managed := InSlice(ServicesTag, listing[k].tags);
      if managed && k !in keep {
        RemoveOneMore(listing, removed, k);
        consul.RemoveService(k);
        removed := removed + {k};
      }
      todo := todo - {k};
    }
    assert removed == Unregistered(listing, keep);
  }

  /**
    `updateDNS` of this version: register, then prune globally. Every entry of
    the pass is present afterwards (when IDs do not collide, each with its own
    registration) and no other managed entry is left.
   */
  method UpdateDNS(consul: ConsulBackend, services: ServiceList)
    modifies consul
    ensures consul.kv == old(consul.kv)
    ensures Converged(old(consul.agent), consul.agent, AllRegistrations(LegacyServiceID, services))
    ensures Complete(consul.agent, AllRegistrations(LegacyServiceID, services))
  {
    var servicesListID := RegisterAll(consul, services);
    ghost var mid := consul.agent;
    PruneUnlisted(consul, servicesListID);
    PruneAfterUpsert(old(consul.agent), mid, AllRegistrations(LegacyServiceID, services));
  }

  /**
    `Sync`: export the database's services, then resync the KV tree and the
    catalog. A nil dereference while exporting stops the pass before Consul is
    touched.
   */
  method Sync(pm: PluginManager, codec: Codec, listFailed: bool) returns (panic: Option<SyncPanic>)
    modifies pm.consul
    ensures panic.Some? <==> ExportedFromDb(pm.db.services, pm.db.endpoints).Err?
    ensures panic.Some? ==> panic.value == ExportedFromDb(pm.db.services, pm.db.endpoints).error
    ensures panic.Some? ==> pm.consul.kv == old(pm.consul.kv) && pm.consul.agent == old(pm.consul.agent)
    ensures panic.None? ==>
              var exported := ExportedFromDb(pm.db.services, pm.db.endpoints).value;
              && pm.consul.kv == KVAfterUpdate(old(pm.consul.kv), ListedKeys(old(pm.consul.kv), listFailed),
                                               exported, codec.encode)
              && Converged(old(pm.consul.agent), pm.consul.agent, AllRegistrations(LegacyServiceID, exported))
              && Complete(pm.consul.agent, AllRegistrations(LegacyServiceID, exported))
  {
    var r := ExportServices(pm.db);
    if r.Err? {
      return Some(r.error);
    }
    ExportedShape(pm.db.services.value, pm.db.endpoints);
    UpdateKV(pm.consul, codec, r.value, listFailed);
    UpdateDNS(pm.consul, r.value);
    return None;
  }

  /**
    A service `api` with port `http` (8080) and one endpoint address is exported
    as one record with that IP and that port.
   */
  lemma ExportExample()
    ensures Exported([KubeService("api", "default", map[], [ServicePort("http", 8080)])],
                     Some([KubeEndpoints("api", "default", [EndpointSubset([EndpointAddress("10.1.1.5")])])]))
         == Ok(map["api" := Service("api", map[], ["10.1.1.5"], map["http" := 8080])])
  {
    var services := [KubeService("api", "default", map[], [ServicePort("http", 8080)])];
    var endpoints := [KubeEndpoints("api", "default", [EndpointSubset([EndpointAddress("10.1.1.5")])])];
    assert services[..0] == [];
    assert GetEndpoints(endpoints, "api") == Some(endpoints[0]);
    var addresses := [EndpointAddress("10.1.1.5")];
    assert addresses[..0] == [];
    assert AddressIPs(addresses) == ["10.1.1.5"];
    var subsets := [EndpointSubset(addresses)];
    assert subsets[..0] == [];
    assert EndpointIPs(subsets) == ["10.1.1.5"];
    var ports := [ServicePort("http", 8080)];
    assert ports[..0] == [];
    assert PortMap(ports) == map["http" := 8080];
  }

  // ---------------------------------------------------------------------------
  // IDs of this version collide
  // ---------------------------------------------------------------------------

  /**
    The legacy ID can be split back on `-` into its three parts when none of
    them contains a `-`.
   */
  lemma LegacyIdSplits(serviceName: string, portName: string, ipAddress: string)
    requires '-' !in serviceName && '-' !in portName && '-' !in ipAddress
    ensures Split(LegacyServiceID(serviceName, portName, ipAddress), '-') == ["svc", serviceName, portName, ipAddress]
  {
    LegacyIdSpelled(serviceName, portName, ipAddress);
    SplitFour("svc", serviceName, portName, ipAddress, '-');
  }

  lemma LegacyIdSpelled(serviceName: string, portName: string, ipAddress: string)
    ensures LegacyServiceID(serviceName, portName, ipAddress)
         == "svc" + ['-'] + (serviceName + ['-'] + (portName + ['-'] + ipAddress))
  {
  }

  /** Two different (service, port) pairs share an ID: `-` also occurs inside names. */
  lemma LegacyIdCollision()
    ensures LegacyServiceID("a-b", "c", "10.0.0.1") == LegacyServiceID("a", "b-c", "10.0.0.1")
  {
  }

  /** Two services whose registrations share an ID, with different ports. */
  function CollidingServices(): ServiceList
  {
    map["a-b" := Service("a-b", map[], ["10.0.0.1"], map["c" := 80]),
        "a" := Service("a", map[], ["10.0.0.1"], map["b-c" := 81])]
  }

  /**
    The registrations of one pass are then not functional: one ID is registered
    twice with different entries, so the catalog keeps only whichever came last
    in map iteration order.
   */
  lemma LegacyRegistrationsClash()
    ensures !Functional(AllRegistrations(LegacyServiceID, CollidingServices()))
  {
    var services := CollidingServices();
    var s1 := services["a-b"];
    var s2 := services["a"];
    var r1 := Reg(LegacyServiceID("a-b", "c", "10.0.0.1"), EntryFor(s1, "c", "10.0.0.1"));
    var r2 := Reg(LegacyServiceID("a", "b-c", "10.0.0.1"), EntryFor(s2, "b-c", "10.0.0.1"));
    assert r1 in Registrations(LegacyServiceID, s1);
    assert r2 in Registrations(LegacyServiceID, s2);
    assert r1 in AllRegistrations(LegacyServiceID, services);
    assert r2 in AllRegistrations(LegacyServiceID, services);
    assert r1.id == r2.id && r1.entry.port != r2.entry.port;
  }
}
