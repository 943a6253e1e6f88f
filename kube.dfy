/**
  The slice of the Kubernetes API objects that the services plugin reads:
  services with their declared ports, endpoints objects with their subsets
  of addresses, and the database that caches both lists.
 */
module Kube {
  import opened Wrappers

  datatype ServicePort = ServicePort(name: string, port: int)

  datatype KubeService = KubeService(
    name: string,
    namespace: string,
    annotations: map<string, string>,
    ports: seq<ServicePort>)

  datatype EndpointAddress = EndpointAddress(ip: string)

  datatype EndpointSubset = EndpointSubset(addresses: seq<EndpointAddress>)

  datatype KubeEndpoints = KubeEndpoints(name: string, namespace: string, subsets: seq<EndpointSubset>)

  /**
    The cached database: the last service and endpoints lists fetched from the
    API server. Both are nil (`None`) until a fetch succeeds, and a failed fetch
    keeps the previous list.
   */
  class Database {
    var services: Option<seq<KubeService>>
    var endpoints: Option<seq<KubeEndpoints>>

    /** `NewDatabase`: nothing fetched yet. */
    constructor ()
      ensures services == None && endpoints == None
    {
      services := None;
      endpoints := None;
    }

    /** `UpdateDatabase`, given what each list request returned (`None` when it failed). */
    method UpdateDatabase(fetchedServices: Option<seq<KubeService>>, fetchedEndpoints: Option<seq<KubeEndpoints>>)
      modifies this
      ensures services == (if fetchedServices.Some? then fetchedServices else old(services))
      ensures endpoints == (if fetchedEndpoints.Some? then fetchedEndpoints else old(endpoints))
    {
      if fetchedServices.Some? {
        services := fetchedServices;
      }
      if fetchedEndpoints.Some? {
        endpoints := fetchedEndpoints;
      }
    }
  }

  /**
    `Database.GetEndpoints(name)`: the first endpoints object with that name in
    list order, whatever its namespace; no object (Go's nil) when none matches.
   */
  function GetEndpoints(endpoints: seq<KubeEndpoints>, name: string): (r: Option<KubeEndpoints>)
    ensures r.None? <==> forall i :: 0 <= i < |endpoints| ==> endpoints[i].name != name
    ensures r.Some? ==> exists i :: 0 <= i < |endpoints| && endpoints[i] == r.value &&
                               forall j :: 0 <= j < i ==> endpoints[j].name != name
    ensures r.Some? ==> r.value.name == name
  {
    if endpoints == [] then None
    else if endpoints[0].name == name then Some(endpoints[0])
    else
      var r := GetEndpoints(endpoints[1..], name);
      if r.Some? then
        ghost var i :| 0 <= i < |endpoints[1..]| && endpoints[1..][i] == r.value &&
                  forall j :: 0 <= j < i ==> endpoints[1..][j].name != name;
        assert endpoints[i + 1] == r.value;
        r
      else r
  }
}
