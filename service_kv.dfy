/**
  The KV half of the services plugin (`service_kv.go`): one record per
  exported service under `services/<name>`, a resync that prunes and rewrites
  the tree, a read that decodes one record back, and a delete.
 */
module ServiceKV {
  import opened Wrappers
  import opened GoStrings
  import opened Consul
  import opened ServiceTypes
  import opened KVLayout

  /** `updateServiceKV`: store the encoded record under the service's key. */
  method UpdateServiceKV(consul: ConsulBackend, codec: Codec, svc: Service)
    modifies consul
    ensures consul.kv == old(consul.kv)[ServiceKey(svc.Name) := codec.encode(svc)]
    ensures consul.agent == old(consul.agent)
  {
    consul.PutKV(ServiceKey(svc.Name), codec.encode(svc));
  }

  /** The keys a `ListKV(SERVICES_ROOT)` call returns: none when the request fails. */
  ghost function ListedKeys(kv: map<string, string>, listFailed: bool): set<string>
  {
    if listFailed then {} else PrefixKeys(kv, ServicesRoot)
  }

  /** The keys of a listing, as a set. */
  ghost function Elems(keys: seq<string>): set<string>
  {
    set k | k in keys
  }

  /** One step of the delete phase: the key is deleted exactly when it is stale. */
  lemma PruneStep(kv: map<string, string>, m: map<string, string>, keys: seq<string>, i: nat, services: ServiceList)
    requires i < |keys|
    requires m == kv - StaleKeys(Elems(keys[..i]), services)
    ensures LastComponent(keys[i], '/') !in services ==>
              m - {keys[i]} == kv - StaleKeys(Elems(keys[..i + 1]), services)
    ensures LastComponent(keys[i], '/') in services ==>
              m == kv - StaleKeys(Elems(keys[..i + 1]), services)
  {
    assert keys[..i + 1] == keys[..i] + [keys[i]];
    assert Elems(keys[..i + 1]) == Elems(keys[..i]) + {keys[i]};
  }

  /**
    The delete phase of `updateKV`, shared by both variants: list the keys under
    the root and delete each whose last `/`-separated component is not an
    exported name.
   */
  method PruneStaleKeys(consul: ConsulBackend, services: ServiceList, listFailed: bool)
    modifies consul
    ensures consul.kv == old(consul.kv) - StaleKeys(ListedKeys(old(consul.kv), listFailed), services)
    ensures consul.agent == old(consul.agent)
  {
    var keys := consul.ListKV(ServicesRoot, listFailed);
    assert Elems(keys) == ListedKeys(old(consul.kv), listFailed);
    assert keys[..0] == [];
    var i := 0;
    while i < |keys|
      invariant 0 <= i <= |keys|
      invariant consul.agent == old(consul.agent)
      invariant consul.kv == old(consul.kv) - StaleKeys(Elems(keys[..i]), services)
    {
      PruneStep(old(consul.kv), consul.kv, keys, i, services);
      var s := Split(keys[i], '/');
      var serviceName := s[|s| - 1];
      if serviceName !in services {
        consul.DeleteKV(keys[i]);
      }
      i := i + 1;
    }
    assert keys[..i] == keys;
  }

  /** Writing over a pruned map commutes with adding one record. */
  lemma PutOverWritten(base: map<string, string>, w: map<string, string>, k: string, v: string)
    ensures (base + w)[k := v] == base + w[k := v]
  {
  }

  /** One put of the rewrite phase extends what has been written over the pruned map. */
  lemma PutStep(pruned: map<string, string>, kv: map<string, string>, services: ServiceList,
                done: set<string>, encode: Service -> string, n: string)
    requires n in services
    requires kv == pruned + WrittenOf(services, done, encode)
    ensures kv[ServiceKey(n) := encode(services[n])] == pruned + WrittenOf(services, done + {n}, encode)
  {
    WrittenOfAdd(services, done, encode, n);
    PutOverWritten(pruned, WrittenOf(services, done, encode), ServiceKey(n), encode(services[n]));
  }

  /** The rewrite phase of `updateKV`: `updateServiceKV` for every exported service. */
  method PutEveryService(consul: ConsulBackend, codec: Codec, services: ServiceList)
    requires WellKeyed(services)
    modifies consul
    ensures consul.kv == old(consul.kv) + Written(services, codec.encode)
    ensures consul.agent == old(consul.agent)
  {
    ghost var start := consul.kv;
    var todo := services.Keys;
    ghost var done: set<string> := {};
    while todo != {}
      invariant todo <= services.Keys
      invariant forall n :: n in done <==> n in services && n !in todo
      invariant consul.agent == old(consul.agent)
      invariant consul.kv == start + WrittenOf(services, done, codec.encode)
      decreases |todo|
    {
      var n :| n in todo;
      PutStep(start, consul.kv, services, done, codec.encode, n);
      UpdateServiceKV(consul, codec, services[n]);
      todo := todo - {n};
      done := done + {n};
    }
    assert done == services.Keys;
  }

  /** `updateKV`: prune the stale keys, then rewrite every exported record. */
  method UpdateKV(consul: ConsulBackend, codec: Codec, services: ServiceList, listFailed: bool)
    requires WellKeyed(services)
    modifies consul
    ensures consul.kv == KVAfterUpdate(old(consul.kv), ListedKeys(old(consul.kv), listFailed), services, codec.encode)
    ensures consul.agent == old(consul.agent)
  {
    PruneStaleKeys(consul, services, listFailed);
    PutEveryService(consul, codec, services);
  }

  /** Why `getServiceKV` yields no record. */
  datatype GetFailure =
    | ReadFailed(msg: string)   // `GetKV` reported a transport error
    | DecodeFailed              // the stored value is not a record
    | NilPairPanic              // the key is missing: `kp.Value` on a nil pair

  /**
    What `getServiceKV(name)` yields on the KV map `kv`: the transport error
    first, then the dereference of the missing pair, then the decoding.
   */
  function StoredService(kv: map<string, string>, codec: Codec, name: string, readError: Option<string>)
    : (r: Result<Service, GetFailure>)
    ensures readError.Some? ==> r == Err(ReadFailed(readError.value))
    ensures readError.None? && ServiceKey(name) !in kv ==> r == Err(NilPairPanic)
    ensures readError.None? && ServiceKey(name) in kv ==>
              (r.Ok? <==> codec.decode(kv[ServiceKey(name)]).Some?)
    ensures r.Ok? ==> ServiceKey(name) in kv && codec.decode(kv[ServiceKey(name)]) == Some(r.value)
  {
    if readError.Some? then Err(ReadFailed(readError.value))
    else if ServiceKey(name) !in kv then Err(NilPairPanic)
    else match codec.decode(kv[ServiceKey(name)])
      case None => Err(DecodeFailed)
      case Some(svc) => Ok(svc)
  }

  /** `getServiceKV`: read the record stored for `name` and decode it. */
  method GetServiceKV(consul: ConsulBackend, codec: Codec, name: string, readError: Option<string>)
    returns (r: Result<Service, GetFailure>)
    ensures r == StoredService(consul.kv, codec, name, readError)
  {
    var key := ServiceKey(name);
    var kp, err := consul.GetKV(key, readError);
    if err.Some? {
      return Err(ReadFailed(err.value));
    }
    if kp.None? {
      return Err(NilPairPanic);
    }
    var decoded := codec.decode(kp.value.value);
    if decoded.None? {
      return Err(DecodeFailed);
    }
    return Ok(decoded.value);
  }

  /** `removeServiceKV`: delete the service's record. */
  method RemoveServiceKV(consul: ConsulBackend, name: string)
    modifies consul
    ensures consul.kv == old(consul.kv) - {ServiceKey(name)}
    ensures consul.agent == old(consul.agent)
  {
    consul.DeleteKV(ServiceKey(name));
  }

  /** Reading a record back right after `updateServiceKV` gives the record. */
  lemma GetAfterPut(kv: map<string, string>, codec: Codec, svc: Service)
    requires RoundTrips(codec)
    ensures StoredService(kv[ServiceKey(svc.Name) := codec.encode(svc)], codec, svc.Name, None) == Ok(svc)
  {
    assert codec.decode(codec.encode(svc)) == Some(svc);
  }

  /** After a resync every exported service reads back as exported. */
  lemma GetAfterUpdateKV(kv: map<string, string>, listed: set<string>, codec: Codec,
                         services: ServiceList, name: string)
    requires RoundTrips(codec) && name in services
    ensures StoredService(KVAfterUpdate(kv, listed, services, codec.encode), codec, name, None)
         == Ok(services[name])
  {
    UpdateKVWritesEveryService(kv, listed, services, codec.encode, name);
    assert codec.decode(codec.encode(services[name])) == Some(services[name]);
  }

  /** A read after `removeServiceKV` finds no pair, which the source dereferences. */
  lemma GetAfterRemove(kv: map<string, string>, codec: Codec, name: string)
    ensures StoredService(kv - {ServiceKey(name)}, codec, name, None) == Err(NilPairPanic)
  {
  }

  /** A resync removes the record of a service no longer exported, when the listing succeeded. */
  lemma UpdateKVDropsRemoved(kv: map<string, string>, codec: Codec, services: ServiceList, name: string)
    requires name !in services && '/' !in name
    ensures StoredService(KVAfterUpdate(kv, ListedKeys(kv, false), services, codec.encode), codec, name, None)
         == Err(NilPairPanic)
  {
    var key := ServiceKey(name);
    assert key == ServicesRoot + ['/'] + name;
    LastComponentJoin(ServicesRoot, name, '/');
    LastComponentPlain(name, '/');
    if key in kv {
      assert key in StaleKeys(ListedKeys(kv, false), services);
    }
  }
}
