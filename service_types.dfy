/**
  The record that the services plugin exports for each Kubernetes service,
  the two reserved constants, and the JSON codec the plugin stores records
  with. Both variants of the plugin share these declarations.
 */
module ServiceTypes {
  import opened Wrappers

  /** Root of the KV tree the plugin owns. */
  const ServicesRoot: string := "services"

  /** Tag that marks the catalog entries the plugin owns and may prune. */
  const ServicesTag: string := "kube2consul-service-managed"

  datatype Service = Service(
    Name: string,
    Annotations: map<string, string>,
    Endpoints: seq<string>,
    Ports: map<string, int>)

  /** `ServiceList`: exported services by name. */
  type ServiceList = map<string, Service>

  /** Every entry is stored under its own name, as every builder of a list does. */
  ghost predicate WellKeyed(services: ServiceList)
  {
    forall n :: n in services ==> services[n].Name == n
  }

  /** KV key of a service's record: `SERVICES_ROOT + "/" + name`. */
  function ServiceKey(name: string): (key: string)
    ensures |key| == |ServicesRoot| + 1 + |name|
    ensures key[..|ServicesRoot| + 1] == ServicesRoot + "/" && key[|ServicesRoot| + 1..] == name
  {
    ServicesRoot + "/" + name
  }

  lemma ServiceKeyInjective(a: string, b: string)
    ensures ServiceKey(a) == ServiceKey(b) ==> a == b
  {
    if ServiceKey(a) == ServiceKey(b) {
      assert a == ServiceKey(a)[|ServicesRoot| + 1..];
    }
  }

  /**
    The JSON marshalling of a record and its unmarshalling. Which concrete
    encoding is used does not matter to the reconciliation; what the plugin
    relies on is that decoding an encoded record gives the record back.
   */
  datatype Codec = Codec(encode: Service -> string, decode: string -> Option<Service>)

  ghost predicate RoundTrips(codec: Codec)
  {
    forall s: Service {:trigger codec.encode(s)} :: codec.decode(codec.encode(s)) == Some(s)
  }

  /** `inSlice`: whether some element of `slice` equals `value`. */
  method InSlice(value: string, slice: seq<string>) returns (found: bool)
    ensures found <==> value in slice
  {
    var i := 0;
    while i < |slice|
      invariant 0 <= i <= |slice|
      invariant value !in slice[..i]
    {
      if slice[i] == value {
        return true;
      }
      i := i + 1;
    }
    assert slice[..i] == slice;
    return false;
  }
}
