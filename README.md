# kube2consul services reconciliation, in Dafny

kube2consul mirrors Kubernetes services into Consul. Its services plugin has two jobs:

- It keeps one JSON record per exported service in the Consul KV tree under `services/<name>`.
- It registers one Consul agent service per (endpoint IP, port name). Each such entry carries the tag `kube2consul-service-managed`, and only tagged entries are ever pruned.

This project models that logic and proves its outcomes. It also models the small plugin registry that dispatches `Initialize` and `Sync` to plugins.

The repository holds two versions of the plugin, and both are modelled side by side:

- **Older version** (`plugins/services/services.go`, module `LegacyServices`). One `Sync` pass does three things:
  - it flattens the cached services and endpoints into exported records;
  - it resyncs the KV tree;
  - it registers every entry under a `svc-<name>-<port>-<ip>` ID, then prunes every tagged entry not registered in the pass.
- **Newer version** (`service_kv.go`, module `ServiceKV`; `service_dns.go`, module `ServiceDNS`):
  - IDs are `~`-delimited (`svc~<name>~<port>~<ip>`) and parse back into their parts.
  - `updateServiceDNS` registers one service and then cleans up within that service's scope.
  - `updateDNS` runs a per-service update for every service and ends with a global cleanup.
  - The KV store has per-service put, get and delete.

The modules are:

- `Consul`: the backend as a class with two mutable maps, `kv` and `agent` (the catalog).
  - Every mutation is a total map update, because in the source a rejected mutation ends the process.
  - Transport failures of `ListKV` and `GetKV` are explicit parameters.
- `Kube`: the Kubernetes objects the plugin reads, and the `Database` class that caches the two lists.
- `ServiceTypes`: the exported `Service` record, `SERVICES_ROOT` and `SERVICES_TAG`, `inSlice`, and the JSON codec.
  - The codec is an abstract encode/decode pair.
  - `RoundTrips` states the one property the plugin relies on: decoding an encoding gives back the record.
- `GoStrings`: Go's `strings.Split` and `strings.SplitN`, for a one-character separator.
- `KVLayout`: the specification of a KV resync.
  - `KVAfterUpdate` is the KV map after the delete and put phases.
  - The lemmas about it state which keys go, which stay and which are written.
- `CatalogSpec`: the specification of a catalog resync, parameterised by the ID scheme.
  - `Registrations` is what a service registers.
  - `Upserted`, `Converged` and `Complete` describe a catalog after the registration and prune passes.
  - It also holds the registration loops that both versions share.
- `ServiceDNS`, `ServiceKV` and `LegacyServices`: the plugin code itself.
  - Every loop is a method with invariants.
  - Every method is proved against the specification functions above.
- `Plugins`: the registry map and the plugin manager.
  - Plugin implementations are interface values, so each dispatched call is recorded in a call log.
- `Scenarios`: a worked registration with concrete values.

Go map iteration order is unspecified. Every loop over a map therefore picks its next key with `:|`, and every contract is stated independently of the order.

## Model

| member | source | states |
|---|---|---|
| Consul.ConsulBackend.PutKV | backend/consul.go:36-43 | the KV map gains or overwrites exactly that key; the catalog is untouched |
| Consul.ConsulBackend.GetKV | backend/consul.go:45-49 | a transport error is returned as is; otherwise the stored pair, or no pair (nil) with no error for a missing key |
| Consul.ConsulBackend.DeleteKV | backend/consul.go:51-57 | exactly that key is removed; the catalog is untouched |
| Consul.ConsulBackend.ListKV | backend/consul.go:59-65 | a failed request yields no keys; otherwise every stored key with the raw string prefix, each once |
| Consul.ConsulBackend.AddService | backend/consul.go:67-81 | the catalog gains, or replaces, the entry under that ID with that name, address, port and tags |
| Consul.ConsulBackend.RemoveService | backend/consul.go:83-89 | exactly that ID leaves the catalog |
| Consul.ConsulBackend.ListServices | backend/consul.go:91-100 | returns the current catalog |
| Consul.ConsulBackend.constructor | backend/consul.go:20-34 | a connected backend sees the remote KV map and catalog as they are (given as arguments) |
| Kube.Database.constructor | database/database.go:31-35 | a new database holds neither list yet |
| Kube.Database.UpdateDatabase | database/database.go:37-51 | each list is replaced by the fetched one; a failed fetch keeps the previous list |
| Kube.GetEndpoints | database/database.go:106-113 | nil iff no object has the name; otherwise the first object in list order with that name, whatever its namespace |
| ServiceTypes.ServiceKey | plugins/services/service_kv.go:13 | the key is `services/` followed by the name, so the name can be read back |
| ServiceTypes.ServiceKeyInjective | plugins/services/service_kv.go:33 | different names never share a KV key |
| ServiceTypes.InSlice | plugins/services/services.go:147-154 | true iff some element equals the value; the newer copy at service_dns.go:12-19 is the same loop |
| GoStrings.Split | plugins/services/service_kv.go:18 | `strings.Split` gives one more part than there are separators |
| GoStrings.SplitN | plugins/services/service_dns.go:26 | `strings.SplitN(s, c, n)` gives min(n, separators + 1) parts, and only the last may contain the separator |
| GoStrings.LastComponentJoin | plugins/services/service_kv.go:18-19 | the last `/` component of `a/b` is that of `b`, so nested keys are compared by their final name |
| KVLayout.StaleKeys | plugins/services/service_kv.go:17-23 | the keys the delete phase removes are among the listed keys |
| KVLayout.UpdateKVWritesEveryService | plugins/services/service_kv.go:25-27 | after a resync every exported service's key holds its encoding |
| KVLayout.ListedKeyFate | plugins/services/service_kv.go:17-23 | a listed key that is not rewritten survives iff its last `/` component is an exported name, and then keeps its value |
| KVLayout.UnlistedKeySurvives | plugins/services/service_kv.go:17 | a key `ListKV` did not return is never deleted |
| KVLayout.NestedKeySurvives | plugins/services/service_kv.go:18-20 | a nested key `dir/web` with `web` exported is kept unchanged |
| KVLayout.UpdateKVIdempotent | plugins/services/service_kv.go:16-30 | a second resync with the same services changes nothing, once the first listed every key under the root |
| ServiceKV.UpdateServiceKV | plugins/services/service_kv.go:11-14 | writes only `services/<name>`, with the record's encoding; the catalog is untouched |
| ServiceKV.PruneStaleKeys | plugins/services/service_kv.go:17-23 | deletes exactly the stale listed keys; no keys are deleted when the listing failed |
| ServiceKV.PutEveryService | plugins/services/service_kv.go:25-27 | the put loop writes every exported record under its `services/<name>` key over the pruned map, and the catalog is untouched |
| ServiceKV.UpdateKV | plugins/services/service_kv.go:16-30 | the KV map ends as `KVAfterUpdate` of the old map and the listed keys |
| ServiceKV.StoredService | plugins/services/service_kv.go:32-42 | the read error wins; then a missing key is the nil-pair dereference; then the result is ok iff the value decodes, and an ok result is the decoded record |
| ServiceKV.GetServiceKV | plugins/services/service_kv.go:32-42 | yields exactly `StoredService` of the current KV map |
| ServiceKV.RemoveServiceKV | plugins/services/service_kv.go:44-47 | deletes only `services/<name>`; every other key and the catalog are unchanged |
| ServiceKV.GetAfterPut | plugins/services/service_kv.go:11-42 | reading a record back after `updateServiceKV` gives the record, given a round-tripping codec |
| ServiceKV.GetAfterUpdateKV | plugins/services/service_kv.go:16-42 | after a resync every exported service reads back as exported |
| ServiceKV.GetAfterRemove | plugins/services/service_kv.go:37-47 | a read after `removeServiceKV` meets the nil pair |
| ServiceKV.UpdateKVDropsRemoved | plugins/services/service_kv.go:17-23 | after a resync with a successful listing, a service no longer exported has no record |
| CatalogSpec.EntryFor | plugins/services/service_dns.go:43-49 | definition: an entry is named `<svc>-<port>`, has the endpoint IP, that port's number and exactly the managed tag |
| CatalogSpec.RegistrationsManaged | plugins/services/service_dns.go:48 | every registration carries the managed tag |
| CatalogSpec.PruneAfterUpsert | plugins/services/services.go:135-142 | registering, then removing the tagged entries not registered, converges and leaves every registered ID present |
| CatalogSpec.ConvergedManagedExactly | plugins/services/services.go:116-145 | in a converged and complete catalog, the tagged IDs are exactly the registered IDs |
| CatalogSpec.ConvergedUnique | plugins/services/services.go:116-145 | when no ID is registered twice, the converged, complete catalog is unique |
| CatalogSpec.ConvergedIdempotent | plugins/services/services.go:116-145 | a second converging pass with the same registrations changes nothing |
| CatalogSpec.UpsertServiceStep | plugins/services/services.go:119-133 | handling one more service extends the upserts and the gathered IDs by that service's |
| CatalogSpec.RegisterPorts | plugins/services/service_dns.go:42-50 | registers one entry per port name of one endpoint IP and returns exactly those IDs |
| CatalogSpec.RegisterEndpoints | plugins/services/service_dns.go:40-52 | registers one entry per (endpoint IP, port name) and returns exactly those IDs; the KV map is untouched |
| ServiceDNS.GenerateServiceID | plugins/services/service_dns.go:21-23 | an ID always holds at least three `~` separators, so it always parses |
| ServiceDNS.ParseServiceID | plugins/services/service_dns.go:25-35 | fails iff the ID has fewer than three `~`; on failure all three parts are empty and the message names the ID; the first part is not checked |
| ServiceDNS.ParseJoined | plugins/services/service_dns.go:25-35 | any `head~name~port~ip` with no `~` in the first three parts parses into its last three; the IP keeps any `~` |
| ServiceDNS.ParseNameOf | plugins/services/service_dns.go:25-35 | an ID `head~name~rest` with a `~` in `rest` parses, with service name `name` |
| ServiceDNS.ParseGenerated | plugins/services/service_dns.go:21-35 | round trip: a generated ID parses back into its components when name and port have no `~` |
| ServiceDNS.GenerateServiceIDInjective | plugins/services/service_dns.go:21-23 | generated IDs of different triples differ when names and ports have no `~` |
| ServiceDNS.IsInvalidEntry | plugins/services/service_dns.go:76-92 | the per-entry decision of `cleanDNS` is exactly `IsCleanTarget` |
| ServiceDNS.CollectInvalid | plugins/services/service_dns.go:73-93 | collects exactly the IDs of the listing that the cleanup targets |
| ServiceDNS.RemoveAll | plugins/services/service_dns.go:95-98 | removes exactly the collected IDs and nothing else |
| ServiceDNS.CleanDNS | plugins/services/service_dns.go:72-99 | the catalog loses exactly the targeted entries of the listing taken before any removal |
| ServiceDNS.RemoveServiceDNS | plugins/services/service_dns.go:101-103 | the cleanup scoped to the service with no IDs kept |
| ServiceDNS.CleanKeepsUnmanaged | plugins/services/service_dns.go:76-79 | a cleanup never removes an entry without the managed tag |
| ServiceDNS.GlobalCleanPrunes | plugins/services/service_dns.go:81-92 | the global cleanup removes exactly the tagged entries not in `ids`, whether or not they parse |
| ServiceDNS.ScopedCleanTargets | plugins/services/service_dns.go:81-92 | a scoped cleanup removes a tagged entry iff its ID fails to parse, or parses to the service and is not in `ids` |
| ServiceDNS.RemoveServiceSparesOthers | plugins/services/service_dns.go:101-103 | `removeServiceDNS(S)` keeps every generated entry of another `~`-free service, whatever its port name and IP |
| ServiceDNS.RemoveServiceRemovesOwn | plugins/services/service_dns.go:101-103 | `removeServiceDNS(S)` removes every tagged generated entry of a `~`-free `S`, whatever its port name and IP |
| ServiceDNS.CleanAfterUpsert | plugins/services/service_dns.go:37-57 | the cleanup never removes an ID the service just registered |
| ServiceDNS.UpdateServiceDNS | plugins/services/service_dns.go:37-57 | returns exactly the service's generated IDs; the catalog is the scoped cleanup of the old catalog with every registration upserted |
| ServiceDNS.UpdatedServiceEntriesExact | plugins/services/service_dns.go:37-57 | afterwards the tagged entries parsing to the service are exactly the returned IDs |
| ServiceDNS.EmptyNameCleansGlobally | plugins/services/service_dns.go:10-54 | for a service with an empty name, the per-service cleanup is global: afterwards the tagged entries are exactly that service's IDs |
| ServiceDNS.DoneIdParses | plugins/services/service_dns.go:62-64 | an ID registered for a handled service parses back to its name |
| ServiceDNS.SyncProgressStep | plugins/services/service_dns.go:62-64 | one more `updateServiceDNS` keeps the progress of the pass |
| ServiceDNS.SyncProgressDone | plugins/services/service_dns.go:66 | the closing global cleanup turns a full pass into convergence, and into completeness when names are non-empty and free of `~` |
| ServiceDNS.GatheredIdsStep | plugins/services/service_dns.go:63 | the gathered IDs grow by each handled service's IDs |
| ServiceDNS.UpdateEveryService | plugins/services/service_dns.go:60-64 | runs `updateServiceDNS` for every service and returns exactly all their IDs |
| ServiceDNS.UpdateDNS | plugins/services/service_dns.go:59-69 | the catalog converges to the pass's registrations with untagged entries unchanged; every registered ID is present when names are non-empty and free of `~` |
| ServiceDNS.TildeFreeFunctional | plugins/services/service_dns.go:21-23 | with names and ports free of `~`, no ID is registered with two different entries |
| ServiceDNS.UpdateDNSIdempotent | plugins/services/service_dns.go:59-69 | a second `updateDNS` over the same services leaves the catalog as the first left it |
| ServiceDNS.ConvergedIdsParse | plugins/services/service_dns.go:81-84 | after `updateDNS` every tagged entry has an ID that parses |
| LegacyServices.AddressIPs | plugins/services/services.go:71-73 | the IPs of the addresses, in order, one per address |
| LegacyServices.EndpointIPsMembers | plugins/services/services.go:70-74 | an IP is exported iff some address of some subset carries it |
| LegacyServices.CollectIPs | plugins/services/services.go:70-74 | the nested loop yields the in-order concatenation of the IPs of every subset |
| LegacyServices.PortMapKeys | plugins/services/services.go:76-78 | the exported port names are exactly the declared names |
| LegacyServices.PortMapLastWins | plugins/services/services.go:76-78 | a port name maps to the number of its last declaration |
| LegacyServices.CollectPorts | plugins/services/services.go:76-78 | the port loop yields exactly the port map |
| LegacyServices.BuildService | plugins/services/services.go:80-85 | the name and annotations are copied unchanged |
| LegacyServices.ExportedShape | plugins/services/services.go:60-88 | a successful export holds one record per distinct service name, stored under that name |
| LegacyServices.ExportedOk | plugins/services/services.go:64-70 | the export succeeds iff the list is empty or every service has an endpoints object |
| LegacyServices.ExportedFirstMissing | plugins/services/services.go:64-70 | a failed export stops at the first service without an endpoints object and names it |
| LegacyServices.ExportedLastWins | plugins/services/services.go:87 | the record under a name comes from the last service of that name in list order |
| LegacyServices.ExportedErrSticks | plugins/services/services.go:64-70 | once a prefix of the list fails, the whole export fails the same way |
| LegacyServices.ExportServices | plugins/services/services.go:60-88 | the export loop yields exactly `ExportedFromDb` of the database's lists |
| LegacyServices.PutEveryRecord | plugins/services/services.go:104-107 | the put loop writes every exported record under `services/<name>` over the pruned map, and the catalog is untouched |
| LegacyServices.UpdateKV | plugins/services/services.go:94-110 | the KV map ends as `KVAfterUpdate`; the catalog is untouched |
| LegacyServices.RegisterAll | plugins/services/services.go:119-133 | every registration of the pass is upserted, and `servicesListID` is exactly their IDs |
| LegacyServices.PruneUnlisted | plugins/services/services.go:135-142 | removes exactly the tagged entries whose ID is not kept |
| LegacyServices.UpdateDNS | plugins/services/services.go:116-145 | the catalog converges and every ID registered in the pass is present; untagged entries are unchanged |
| LegacyServices.Sync | plugins/services/services.go:59-92 | panics iff the export hits a nil list or a nil endpoints object, and then Consul is untouched; otherwise KV and catalog are resynced as above |
| LegacyServices.ExportExample | plugins/services/services.go:59-92 | a service `api` with port `http` 8080 and one address exports one record with that IP and port |
| LegacyServices.LegacyServiceID | plugins/services/services.go:112-114 | no contract; `LegacyIdSplits` and the collision lemmas state what the ID determines |
| LegacyServices.LegacyIdSplits | plugins/services/services.go:112-114 | an ID built from `-`-free parts splits on `-` back into `svc` and those three parts |
| LegacyServices.LegacyIdCollision | plugins/services/services.go:112-114 | `svc-a-b-c-10.0.0.1` is the ID of both (`a-b`, `c`) and (`a`, `b-c`) |
| LegacyServices.LegacyRegistrationsClash | plugins/services/services.go:116-133 | two services can register the same ID with different entries |
| Plugins.PendingInit | plugins/common.go:43-45 | definition: the names whose entries are not initialised |
| Plugins.Registry.constructor | plugins/common.go:9 | the package-level map starts empty |
| Plugins.Registry.Register | plugins/common.go:22-25 | stores `{name, plugin, false}` under the name, replacing any earlier entry |
| Plugins.PluginManager.constructor | plugins/common.go:32-34 | the manager's database and backend are exactly the arguments |
| Plugins.PluginManager.Sync | plugins/common.go:36-40 | one `Sync` call per registered entry, each to that entry's plugin; the registry is unchanged |
| Plugins.SyncAll | plugins/common.go:37-39 | the loop issues one call per entry, to distinct names, covering every name |
| Plugins.PluginManager.Initialize | plugins/common.go:42-49 | one `Initialize` call per entry not initialised; the registry's flags stay as they were |
| Plugins.InitializePending | plugins/common.go:43-48 | the loop issues one call per pending entry and drops the updated copy |
| Plugins.InitializeTwiceRepeats | plugins/common.go:43-47 | a freshly registered services entry is pending; `InitializeTwice` uses this |
| Plugins.InitializeTwice | plugins/common.go:42-49 | after the services plugin registers, two `Initialize` calls as written issue two `Initialize` calls to it |
| Plugins.MarkedInitialized | plugins/common.go:46 | every entry is kept with its flag set, so nothing is left pending |
| Plugins.PluginManager.InitializeOnce | plugins/common.go:42-49 | one call per pending entry, and every flag is written back into the registry |
| Plugins.InitializeAndMark | plugins/common.go:43-48 | the calls of `InitializeOnce`'s loop, and the registry with every flag set |
| Plugins.InitializeOnceTwice | plugins/common.go:42-49 | after the services plugin registers, two `InitializeOnce` calls issue exactly one `Initialize` call to it |
| Plugins.InitializeOnceSettles | plugins/common.go:42-49 | after `InitializeOnce` nothing is pending |
| Plugins.RegisteredThenMarked | plugins/common.go:22-49 | a freshly registered plugin is pending, and is no longer pending once marked |
| Scenarios.RegistrationExample | plugins/services/service_dns.go:21-50 | `api` with port `http` 8080 on `10.1.1.5` registers only `svc~api~http~10.1.1.5` (named `api-http`, tagged), and that ID parses back |

## Left out

- I/O and logging (`glog`, `fmt.Println`) are not modelled. They do not affect state.
- `ServicePlugin.Initialize` (services.go:39-53) subscribes to watch events and starts a goroutine, and `handleEvent` (services.go:55-57) only logs. Both are concurrency code with no state to reconcile. The `init` function at services.go:34-37 is `Plugins.Registry.Register` applied to the services plugin.
- The Kubernetes watcher, the ticker, `main.go`, the database's mutex and the Kubernetes client are not modelled. The database is the `Kube.Database` class, and its lists are inputs to `LegacyServices.Sync`.
- `encoding/json`: records are encoded by an abstract `Codec`. The round trip is the hypothesis `RoundTrips` wherever a read after a write is claimed. The marshal error ignored at services.go:105 and service_kv.go:12 cannot happen in the model.
- Consul failures:
  - A rejected `PutKV`, `DeleteKV`, `AddService`, `RemoveService` or `ListServices` aborts the process (`glog.Fatalln`). These are total map updates in the model.
  - A failed `ListKV` returns nil in backend/consul.go:59-65. It is the `listFailed` parameter, and then `updateKV` deletes nothing but still writes every record.
  - A failed `GetKV` is the `readError` parameter.
- A nil dereference is an explicit outcome:
  - `LegacyServices.SyncPanic` covers a nil service list, a nil endpoints list and a nil endpoints object (services.go:62-70). The nil endpoints list is dereferenced inside `GetEndpoints` (database.go:106-113), which services.go:67 calls.
  - `ServiceKV.GetFailure.NilPairPanic` covers the missing pair (service_kv.go:37).
  - The model stops the pass there. The process would crash, and nothing in Consul has been touched at that point.
- Plugin implementations are interface values. `Plugins.PluginManager.Sync` and `Initialize` record each dispatched call in `Registry.calls` and do not run the plugin. The services plugin's own `Sync` is `LegacyServices.Sync`, taking the manager.
- Go's map iteration order is unspecified. The model leaves it open (`:|`), so it does not fix the order of registrations, KV writes or calls.
- ServiceKV.UpdateKV: requires `WellKeyed(services)` (every map entry is stored under its record's `Name`). The source writes under `svc.Name` but deletes by map key. `LegacyServices.Sync` builds its list that way (`ExportedShape`); a list that breaks this is not modelled.
- LegacyServices.UpdateKV: the same `WellKeyed(services)` requirement, for the same reason.
- ServiceKV.PutEveryService: the same `WellKeyed(services)` requirement, for the same reason.
- LegacyServices.PutEveryRecord: the same `WellKeyed(services)` requirement, for the same reason.
- ServiceDNS.UpdateDNS: `Complete` (every registered ID present) is stated only under `DistinctPlainNames` (names non-empty and free of `~`). Otherwise a later service's scoped cleanup can remove an earlier service's entries:
  - an empty name makes the cleanup global;
  - a name with `~` misparses.
- ServiceDNS.UpdateDNSIdempotent: also requires `TildeFree` (port names free of `~`). Without it two registrations can share an ID, and the surviving entry depends on iteration order.
- LegacyServices.UpdateDNS: it converges and is complete, but a shared ID keeps whichever registration came last, so uniqueness and idempotence are proved only for the newer variant (see Findings).
- Behaviours of the code a reader might not expect, all kept by the model:
  - A KV sync whose listing fails still writes every record and deletes nothing; it does not abort.
  - A record that fails to decode is returned as an error by `getServiceKV` and is not deleted on read.
  - A missing record makes the client return a nil pair, which is dereferenced; the model does not return "not found".
  - A service without an endpoints object makes the older `Sync` dereference nil; the model does not skip the service.
  - Service names are not checked to be non-empty. An empty name turns the per-service cleanup into a global one (`ServiceDNS.EmptyNameCleansGlobally`).
- LegacyServices.LegacyServiceID: has no contract of its own. Its plain string formula is its body, and `LegacyIdSplits` and the collision lemmas state what it determines.
- Strings are sequences of characters. `strings.Split` and `strings.SplitN` are modelled for one-character separators only, which is all the core uses.

## Findings

| source | as written | input that shows it | evidently intended | confidence | as-written member | corrected member |
|---|---|---|---|---|---|---|
| plugins/services/services.go:112-114 | IDs are `svc-<name>-<port>-<ip>`, and `-` may occur inside Kubernetes names and port names | services `a-b` (port `c` = 80) and `a` (port `b-c` = 81), both on `10.0.0.1`, both get ID `svc-a-b-c-10.0.0.1` | one ID per (service, port, IP), as the `~` scheme of service_dns.go:21-23 gives for `~`-free names | medium, not executed | LegacyServices.LegacyRegistrationsClash | ServiceDNS.TildeFreeFunctional |
| plugins/common.go:42-49 | `e.isInitialized = true` assigns the loop copy of the map entry, so the stored flag stays false | register the services plugin, then call `Initialize` twice: both calls initialise it | each plugin is initialised once, with the flag written back into the map | high, not executed | Plugins.InitializeTwice | Plugins.InitializeOnceTwice |
