/**
  The Consul backend as the reconciliation code sees it: a key/value store and
  the local agent's service catalog. Every mutation that Consul rejects ends the
  process (`glog.Fatalln`), so mutations are modelled as total map updates;
  transport failures of the two read calls are explicit parameters.
 */
module Consul {
  import opened Wrappers

  /** One catalog entry as the agent lists it (`consul.AgentService` without its ID). */
  datatype AgentService = AgentService(service: string, address: string, port: int, tags: seq<string>)

  /** The agent's services, keyed by service ID. */
  type Catalog = map<string, AgentService>

  /** A key/value pair as `GetKV` returns it. */
  datatype KVPair = KVPair(key: string, value: string)

  class ConsulBackend {
    var kv: map<string, string>
    var agent: Catalog

    constructor (kv: map<string, string>, agent: Catalog)
      ensures this.kv == kv && this.agent == agent
    {
      this.kv := kv;
      this.agent := agent;
    }

    method PutKV(key: string, value: string)
      modifies this
      ensures kv == old(kv)[key := value]
      ensures agent == old(agent)
    {
      kv := kv[key := value];
    }

    /**
      `GetKV`: the transport error if there is one, otherwise the stored pair,
      or no pair at all (Go's nil) when the key is missing.
     */
    method GetKV(key: string, readError: Option<string>) returns (pair: Option<KVPair>, err: Option<string>)
      ensures readError.Some? ==> pair == None && err == readError
      ensures readError.None? ==> err == None
      ensures readError.None? && key in kv ==> pair == Some(KVPair(key, kv[key]))
      ensures readError.None? && key !in kv ==> pair == None
    {
      if readError.Some? {
        pair, err := None, readError;
      } else if key in kv {
        pair, err := Some(KVPair(key, kv[key])), None;
      } else {
        pair, err := None, None;
      }
    }

    method DeleteKV(key: string)
      modifies this
      ensures kv == old(kv) - {key}
      ensures agent == old(agent)
    {
      kv := kv - {key};
    }

    /**
      `ListKV(prefix)`: every stored key that starts with `prefix` (Consul's
      prefix match is on the raw string), each once; the source turns a
      failed request into an empty list.
     */
    method ListKV(prefix: string, listFailed: bool) returns (keys: seq<string>)
      ensures listFailed ==> keys == []
      ensures !listFailed ==> forall k :: k in keys <==> k in kv && prefix <= k
      ensures forall i, j :: 0 <= i < j < |keys| ==> keys[i] != keys[j]
    {
      keys := [];
      if listFailed {
        return;
      }
      var todo := set k | k in kv && prefix <= k;
      while todo != {}
        invariant todo <= (set k | k in kv && prefix <= k)
        invariant forall k :: k in keys <==> k in kv && prefix <= k && k !in todo
        invariant forall i, j :: 0 <= i < j < |keys| ==> keys[i] != keys[j]
        decreases |todo|
      {
        var k :| k in todo;
        keys := keys + [k];
        todo := todo - {k};
      }
    }

    method AddService(id: string, name: string, address: string, port: int, tags: seq<string>)
      modifies this
      ensures agent == old(agent)[id := AgentService(name, address, port, tags)]
      ensures kv == old(kv)
    {
      agent := agent[id := AgentService(name, address, port, tags)];
    }

    method RemoveService(id: string)
      modifies this
      ensures agent == old(agent) - {id}
      ensures kv == old(kv)
    {
      agent := agent - {id};
    }

    /** `ListServices`: a snapshot of the agent's catalog. */
    method ListServices() returns (services: Catalog)
      ensures services == agent
    {
      services := agent;
    }
  }
}
