/**
  Worked instances of the newer variant's registration: a concrete service and
  the catalog entry it yields.
 */
module Scenarios {
  import opened Wrappers
  import opened Consul
  import opened ServiceTypes
  import opened CatalogSpec
  import opened ServiceDNS

  /** The example service: `api` with port `http` (8080) on one endpoint `10.1.1.5`. */
  function ApiService(): Service
  {
    Service("api", map[], ["10.1.1.5"], map["http" := 8080])
  }

  /** The example service registers one entry, under its generated ID. */
  lemma ApiRegistrations()
    ensures Registrations(GenerateServiceID, ApiService())
         == {Reg(GenerateServiceID("api", "http", "10.1.1.5"), AgentService("api-http", "10.1.1.5", 8080, [ServicesTag]))}
  {
    var svc := ApiService();
    var g := Reg(GenerateServiceID(svc.Name, "http", "10.1.1.5"), EntryFor(svc, "http", "10.1.1.5"));
    assert g in Registrations(GenerateServiceID, svc);
    assert Registrations(GenerateServiceID, svc) == {g};
    assert EntryFor(svc, "http", "10.1.1.5").service == "api-http";
  }

  /** The example's ID, spelled out. */
  lemma ApiServiceIDSpelled()
    ensures GenerateServiceID("api", "http", "10.1.1.5") == "svc~api~http~10.1.1.5"
  {
  }

  /** The example's ID parses back into its components. */
  lemma ApiServiceID()
    ensures GenerateServiceID("api", "http", "10.1.1.5") == "svc~api~http~10.1.1.5"
    ensures ParseServiceID("svc~api~http~10.1.1.5") == ParsedID("api", "http", "10.1.1.5", None)
  {
    ApiServiceIDSpelled();
    ParseGenerated("api", "http", "10.1.1.5");
  }

  /**
    Service `api` with port `http` (8080) on one endpoint `10.1.1.5` registers
    one entry, `svc~api~http~10.1.1.5`, named `api-http`, whose ID parses back.
   */
  lemma RegistrationExample()
    ensures Registrations(GenerateServiceID, Service("api", map[], ["10.1.1.5"], map["http" := 8080]))
         == {Reg("svc~api~http~10.1.1.5", AgentService("api-http", "10.1.1.5", 8080, [ServicesTag]))}
    ensures ParseServiceID("svc~api~http~10.1.1.5") == ParsedID("api", "http", "10.1.1.5", None)
  {
    ApiRegistrations();
    ApiServiceID();
  }
}
