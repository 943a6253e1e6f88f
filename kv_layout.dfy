/**
  The KV-tree convergence that both variants of `updateKV` perform: delete
  every listed key whose last `/`-separated component is not an exported
  name, then write every exported record under `services/<name>`.
 */
module KVLayout {
  import opened GoStrings
  import opened ServiceTypes

  /** The keys that a successful `ListKV(prefix)` returns. */
  ghost function PrefixKeys(kv: map<string, string>, prefix: string): set<string>
  {
    set k | k in kv && prefix <= k
  }

  /** Listed keys that the delete phase removes. */
  function StaleKeys(listed: set<string>, services: ServiceList): (stale: set<string>)
    ensures stale <= listed
  {
    set k | k in listed && LastComponent(k, '/') !in services
  }

  lemma ServiceKeysInjective()
    ensures forall a, b :: ServiceKey(a) == ServiceKey(b) ==> a == b
  {
    forall a, b ensures ServiceKey(a) == ServiceKey(b) ==> a == b {
      ServiceKeyInjective(a, b);
    }
  }

  /** The records that the put phase writes for the services under `names`, keyed by their KV key. */
  function WrittenOf(services: ServiceList, names: set<string>, encode: Service -> string): map<string, string>
  {
    ServiceKeysInjective();
    map n | n in services && n in names :: ServiceKey(n) := encode(services[n])
  }

  /** The records that the put phase writes. */
  function Written(services: ServiceList, encode: Service -> string): map<string, string>
  {
    WrittenOf(services, services.Keys, encode)
  }

  /** Putting one more service's record extends what the put phase has written. */
  lemma WrittenOfAdd(services: ServiceList, names: set<string>, encode: Service -> string, n: string)
    requires n in services
    ensures WrittenOf(services, names + {n}, encode) == WrittenOf(services, names, encode)[ServiceKey(n) := encode(services[n])]
  {
    ServiceKeysInjective();
  }

  lemma WrittenAt(services: ServiceList, encode: Service -> string, n: string)
    requires n in services
    ensures ServiceKey(n) in Written(services, encode)
    ensures Written(services, encode)[ServiceKey(n)] == encode(services[n])
  {
    ServiceKeysInjective();
  }

  /** The KV map after `updateKV(services)` given the keys `ListKV` returned. */
  function KVAfterUpdate(kv: map<string, string>, listed: set<string>, services: ServiceList,
                         encode: Service -> string): map<string, string>
  {
    (kv - StaleKeys(listed, services)) + Written(services, encode)
  }

  /** Every exported record ends up under its key, holding its encoding. */
  lemma UpdateKVWritesEveryService(kv: map<string, string>, listed: set<string>, services: ServiceList,
                                   encode: Service -> string, n: string)
    requires n in services
    ensures ServiceKey(n) in KVAfterUpdate(kv, listed, services, encode)
    ensures KVAfterUpdate(kv, listed, services, encode)[ServiceKey(n)] == encode(services[n])
  {
    WrittenAt(services, encode, n);
  }

  /**
    A listed key that is not itself rewritten is deleted exactly when its last
    component is not an exported name, and otherwise keeps its value.
   */
  lemma ListedKeyFate(kv: map<string, string>, listed: set<string>, services: ServiceList,
                      encode: Service -> string, k: string)
    requires k in listed && k in kv && k !in Written(services, encode)
    ensures k in KVAfterUpdate(kv, listed, services, encode) <==> LastComponent(k, '/') in services
    ensures k in KVAfterUpdate(kv, listed, services, encode) ==>
              KVAfterUpdate(kv, listed, services, encode)[k] == kv[k]
  {
  }

  /** A key that `ListKV` did not return is never deleted. */
  lemma UnlistedKeySurvives(kv: map<string, string>, listed: set<string>, services: ServiceList,
                            encode: Service -> string, k: string)
    requires k in kv && k !in listed && k !in Written(services, encode)
    ensures k in KVAfterUpdate(kv, listed, services, encode)
    ensures KVAfterUpdate(kv, listed, services, encode)[k] == kv[k]
  {
  }

  /**
    A nested key such as `services/x/web` is kept, unchanged, when `web` is an
    exported name: only the last component is compared.
   */
  lemma NestedKeySurvives(kv: map<string, string>, listed: set<string>, services: ServiceList,
                          encode: Service -> string, dir: string, name: string)
    requires name in services && '/' !in name
    requires dir + "/" + name in kv && dir + "/" + name !in Written(services, encode)
    ensures dir + "/" + name in KVAfterUpdate(kv, listed, services, encode)
    ensures KVAfterUpdate(kv, listed, services, encode)[dir + "/" + name] == kv[dir + "/" + name]
  {
    LastComponentJoin(dir, name, '/');
    LastComponentPlain(name, '/');
    assert dir + "/" + name == dir + ['/'] + name;
  }

  /**
    Running `updateKV` again with the same services changes nothing, provided the
    first pass listed every key under the root; the second listing only has to
    stay under the root (it may even have failed and be empty).
   */
  lemma UpdateKVIdempotent(kv: map<string, string>, listed1: set<string>, listed2: set<string>,
                           services: ServiceList, encode: Service -> string)
    requires PrefixKeys(kv, ServicesRoot) <= listed1
    requires forall k :: k in listed2 ==> ServicesRoot <= k
    ensures KVAfterUpdate(KVAfterUpdate(kv, listed1, services, encode), listed2, services, encode)
         == KVAfterUpdate(kv, listed1, services, encode)
  {
    var w := Written(services, encode);
    var r1 := KVAfterUpdate(kv, listed1, services, encode);
    var r2 := KVAfterUpdate(r1, listed2, services, encode);
    forall k | k in r1 && k !in w
      ensures k in r2 && r2[k] == r1[k]
    {
      assert k in kv && k !in StaleKeys(listed1, services);
      if k in listed2 {
        assert k in PrefixKeys(kv, ServicesRoot);
      }
    }
    assert r2.Keys == r1.Keys;
  }
}
