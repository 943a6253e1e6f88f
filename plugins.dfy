/**
  The plugin registry and manager (`plugins/common.go`). Plugins register
  themselves by name into a package-level map; the manager holds the database
  and the Consul backend and fans `Initialize` and `Sync` out to every entry.
  Plugins are interface values whose implementations are not part of this
  module, so a dispatched call is recorded in a call log instead of run.
 */
module Plugins {
  import opened Consul
  import opened Kube

  /** The identity of a plugin object (the `Plugin` interface value). */
  datatype PluginRef = PluginRef(id: nat)

  datatype PluginEntry = PluginEntry(name: string, isInitialized: bool, plugin: PluginRef)

  datatype Op = InitializeOp | SyncOp

  /** One dispatched call: which operation, on the entry of which name, reaching which plugin. */
  datatype Call = Call(op: Op, name: string, plugin: PluginRef)

  /** The names whose entries have not been initialised. */
  function PendingInit(plugins: map<string, PluginEntry>): (pending: set<string>)
    ensures forall n :: n in pending <==> n in plugins && !plugins[n].isInitialized
  {
    set n | n in plugins && !plugins[n].isInitialized
  }

  /** Every call in `issued` is an `op` to the plugin of one of `names`. */
  ghost predicate CallsMatch(issued: seq<Call>, op: Op, plugins: map<string, PluginEntry>, names: set<string>)
  {
    forall i :: 0 <= i < |issued| ==>
      issued[i].op == op && issued[i].name in names && issued[i].name in plugins &&
      issued[i].plugin == plugins[issued[i].name].plugin
  }

  /** No name is called twice. */
  ghost predicate NamesDistinct(issued: seq<Call>)
  {
    forall i, j :: 0 <= i < j < |issued| ==> issued[i].name != issued[j].name
  }

  /** Every name in `names` is called. */
  ghost predicate Covers(issued: seq<Call>, names: set<string>)
  {
    forall n :: n in names ==> exists i :: 0 <= i < |issued| && issued[i].name == n
  }

  /**
    `issued` holds exactly one call of `op` per name in `names`, each reaching
    that name's plugin, in some order (Go's map iteration order is unspecified).
   */
  ghost predicate OnePerEntry(issued: seq<Call>, op: Op, plugins: map<string, PluginEntry>, names: set<string>)
  {
    && |issued| == |names|
    && CallsMatch(issued, op, plugins, names)
    && NamesDistinct(issued)
    && Covers(issued, names)
  }

  lemma CallsMatchStep(issued: seq<Call>, op: Op, plugins: map<string, PluginEntry>, names: set<string>, name: string)
    requires CallsMatch(issued, op, plugins, names) && name in plugins
    ensures CallsMatch(issued + [Call(op, name, plugins[name].plugin)], op, plugins, names + {name})
  {
    var next := issued + [Call(op, name, plugins[name].plugin)];
    forall i | 0 <= i < |next|
      ensures next[i].op == op && next[i].name in names + {name} && next[i].name in plugins &&
              next[i].plugin == plugins[next[i].name].plugin
    {
      if i < |issued| {
        assert next[i] == issued[i];
      }
    }
  }

  lemma NamesDistinctStep(issued: seq<Call>, op: Op, plugins: map<string, PluginEntry>, names: set<string>, name: string)
    requires CallsMatch(issued, op, plugins, names) && NamesDistinct(issued) && name in plugins && name !in names
    ensures NamesDistinct(issued + [Call(op, name, plugins[name].plugin)])
  {
    var next := issued + [Call(op, name, plugins[name].plugin)];
    forall i, j | 0 <= i < j < |next| ensures next[i].name != next[j].name {
      assert next[i] == issued[i];
      if j < |issued| {
        assert next[j] == issued[j];
      }
    }
  }

  lemma CoversStep(issued: seq<Call>, names: set<string>, call: Call)
    requires Covers(issued, names)
    ensures Covers(issued + [call], names + {call.name})
  {
    var next := issued + [call];
    forall n | n in names + {call.name} ensures exists i :: 0 <= i < |next| && next[i].name == n {
      if n == call.name {
        assert next[|issued|].name == n;
      } else {
        var i :| 0 <= i < |issued| && issued[i].name == n;
        assert next[i].name == n;
      }
    }
  }

  /** One more call, for a name not yet called, keeps one call per entry. */
  lemma OnePerEntryStep(issued: seq<Call>, op: Op, plugins: map<string, PluginEntry>, names: set<string>, name: string)
    requires OnePerEntry(issued, op, plugins, names)
    requires name in plugins && name !in names
    ensures OnePerEntry(issued + [Call(op, name, plugins[name].plugin)], op, plugins, names + {name})
  {
    assert |names + {name}| == |names| + 1;
    CallsMatchStep(issued, op, plugins, names, name);
    NamesDistinctStep(issued, op, plugins, names, name);
    CoversStep(issued, names, Call(op, name, plugins[name].plugin));
  }

  /**
    The package-level `plugins` map, with the log of calls made into the
    registered plugins.
   */
  class Registry {
    var plugins: map<string, PluginEntry>
    var calls: seq<Call>

    /** The map as package initialisation creates it: empty. */
    constructor ()
      ensures plugins == map[] && calls == []
    {
      plugins := map[];
      calls := [];
    }

    /** `Register`: (re)place the entry for `name`, not yet initialised. */
    method Register(name: string, plugin: PluginRef)
      modifies this
      ensures plugins == old(plugins)[name := PluginEntry(name, false, plugin)]
      ensures calls == old(calls)
    {
      plugins := plugins[name := PluginEntry(name, false, plugin)];
    }
  }

  /** The entries with those under `names` marked as initialised. */
  ghost function MarkedOn(plugins: map<string, PluginEntry>, names: set<string>): map<string, PluginEntry>
  {
    map n | n in plugins :: if n in names then plugins[n].(isInitialized := true) else plugins[n]
  }

  /** The flags after an `Initialize` that records what it did, as evidently intended. */
  function MarkedInitialized(plugins: map<string, PluginEntry>): (marked: map<string, PluginEntry>)
    ensures marked.Keys == plugins.Keys
    ensures forall n :: n in marked ==> marked[n] == plugins[n].(isInitialized := true)
    ensures PendingInit(marked) == {}
  {
    map n | n in plugins :: plugins[n].(isInitialized := true)
  }

  lemma MarkedOnStep(plugins: map<string, PluginEntry>, names: set<string>, name: string)
    requires name in plugins
    ensures MarkedOn(plugins, names + {name}) == MarkedOn(plugins, names)[name := plugins[name].(isInitialized := true)]
  {
  }

  class PluginManager {
    const db: Database
    const consul: ConsulBackend

    /** `NewPluginManager`. */
    constructor (db: Database, consul: ConsulBackend)
      ensures this.db == db && this.consul == consul
    {
      this.db := db;
      this.consul := consul;
    }

    /** `Sync`: call `Sync` on every registered plugin, once per entry. */
    method Sync(registry: Registry)
      modifies registry
      ensures registry.plugins == old(registry.plugins)
      ensures exists issued :: registry.calls == old(registry.calls) + issued &&
                OnePerEntry(issued, SyncOp, registry.plugins, registry.plugins.Keys)
    {
      var issued := SyncAll(registry.plugins);
      registry.calls := registry.calls + issued;
    }

    /**
      `Initialize`, as written: call `Initialize` on every entry not yet
      initialised. The flag is set on the loop's copy of the entry, so the
      registry keeps every flag as it was.
     */
    method Initialize(registry: Registry)
      modifies registry
      ensures registry.plugins == old(registry.plugins)
      ensures exists issued :: registry.calls == old(registry.calls) + issued &&
                OnePerEntry(issued, InitializeOp, registry.plugins, PendingInit(registry.plugins))
    {
      var issued := InitializePending(registry.plugins);
      registry.calls := registry.calls + issued;
    }

    /**
      `Initialize` with the flag written back into the registry: each pending
      entry is initialised and then marked.
     */
    method InitializeOnce(registry: Registry)
      modifies registry
      ensures registry.plugins == MarkedInitialized(old(registry.plugins))
      ensures exists issued :: registry.calls == old(registry.calls) + issued &&
                OnePerEntry(issued, InitializeOp, old(registry.plugins), PendingInit(old(registry.plugins)))
    {
      var issued, marked := InitializeAndMark(registry.plugins);
      registry.calls := registry.calls + issued;
      registry.plugins := marked;
    }
  }

  /** The loop of `PluginManager.Sync`: the calls it makes, one per entry. */
  method SyncAll(plugins: map<string, PluginEntry>) returns (issued: seq<Call>)
    ensures OnePerEntry(issued, SyncOp, plugins, plugins.Keys)
  {
    issued := [];
    var todo := plugins.Keys;
    ghost var done: set<string> := {};
    while todo != {}
      invariant todo <= plugins.Keys
      invariant forall n :: n in done <==> n in plugins && n !in todo
      invariant OnePerEntry(issued, SyncOp, plugins, done)
      decreases |todo|
    {
      var name :| name in todo;
      var e := plugins[name];
      OnePerEntryStep(issued, SyncOp, plugins, done, name);
      issued := issued + [Call(SyncOp, name, e.plugin)];
      todo := todo - {name};
      done := done + {name};
    }
    assert done == plugins.Keys;
  }

  /**
    The loop of `PluginManager.Initialize` as written: the calls it makes, one
    per pending entry. The updated copy `e` is dropped at the end of each turn.
   */
  method InitializePending(plugins: map<string, PluginEntry>) returns (issued: seq<Call>)
    ensures OnePerEntry(issued, InitializeOp, plugins, PendingInit(plugins))
  {
    issued := [];
    var todo := plugins.Keys;
    ghost var done: set<string> := {};
    ghost var called: set<string> := {};
    while todo != {}
      invariant todo <= plugins.Keys
      invariant forall n :: n in done <==> n in plugins && n !in todo
      invariant called <= done
      invariant forall n :: n in done ==> (n in called <==> !plugins[n].isInitialized)
      invariant OnePerEntry(issued, InitializeOp, plugins, called)
      decreases |todo|
    {
      var name :| name in todo;
      var e := plugins[name];
      if !e.isInitialized {
        OnePerEntryStep(issued, InitializeOp, plugins, called, name);
        called := called + {name};
        issued := issued + [Call(InitializeOp, name, e.plugin)];
        e := e.(isInitialized := true);
      }
      todo := todo - {name};
      done := done + {name};
    }
    assert called == PendingInit(plugins);
  }

  /** The loop of `InitializeOnce`: the calls, one per pending entry, and the marked entries. */
  method InitializeAndMark(plugins: map<string, PluginEntry>) returns (issued: seq<Call>, marked: map<string, PluginEntry>)
    ensures OnePerEntry(issued, InitializeOp, plugins, PendingInit(plugins))
    ensures marked == MarkedInitialized(plugins)
  {
    issued := [];
    marked := plugins;
    var todo := plugins.Keys;
    ghost var done: set<string> := {};
    ghost var called: set<string> := {};
    while todo != {}
      invariant todo <= plugins.Keys
      invariant forall n :: n in done <==> n in plugins && n !in todo
      invariant marked == MarkedOn(plugins, done)
      invariant called <= done
      invariant forall n :: n in done ==> (n in called <==> !plugins[n].isInitialized)
      invariant OnePerEntry(issued, InitializeOp, plugins, called)
      decreases |todo|
    {
      var name :| name in todo;
      var e := plugins[name];
      MarkedOnStep(plugins, done, name);
      if !e.isInitialized {
        OnePerEntryStep(issued, InitializeOp, plugins, called, name);
        called := called + {name};
        issued := issued + [Call(InitializeOp, name, e.plugin)];
      }
      e := e.(isInitialized := true);
      marked := marked[name := e];
      todo := todo - {name};
      done := done + {name};
    }
    assert called == PendingInit(plugins);
    assert done == plugins.Keys;
  }

  /**
    The services plugin, once registered, is pending. As written, `Initialize`
    keeps the registry as it was, so it stays pending (`InitializeTwice`).
   */
  lemma InitializeTwiceRepeats(plugin: PluginRef)
    ensures var registered := map["services" := PluginEntry("services", false, plugin)];
            PendingInit(registered) == {"services"}
  {
    var registered := map["services" := PluginEntry("services", false, plugin)];
    assert "services" in PendingInit(registered);
  }

  /**
    The registry of the services plugin, registered and not yet initialised,
    with no calls made.
   */
  predicate FreshlyRegistered(registry: Registry, plugin: PluginRef)
    reads registry
  {
    registry.plugins == map["services" := PluginEntry("services", false, plugin)] && registry.calls == []
  }

  /** One `Initialize` call to the services plugin. */
  function InitCall(plugin: PluginRef): Call
  {
    Call(InitializeOp, "services", plugin)
  }

  /** A call log holding one call per name of `{"services"}` is that one call. */
  lemma OneServicesCall(issued: seq<Call>, plugin: PluginRef)
    requires OnePerEntry(issued, InitializeOp, map["services" := PluginEntry("services", false, plugin)], {"services"})
    ensures issued == [InitCall(plugin)]
  {
    assert |issued| == 1;
    assert issued[0].name in {"services"};
  }

  /**
    `Initialize` as written, called twice after the services plugin has
    registered: the flag never reaches the registry, so both calls initialise it.
   */
  method InitializeTwice(pm: PluginManager, registry: Registry, plugin: PluginRef)
    requires FreshlyRegistered(registry, plugin)
    modifies registry
    ensures registry.calls == [InitCall(plugin), InitCall(plugin)]
  {
    InitializeTwiceRepeats(plugin);
    pm.Initialize(registry);
    ghost var first :| registry.calls == [] + first &&
      OnePerEntry(first, InitializeOp, registry.plugins, PendingInit(registry.plugins));
    OneServicesCall(first, plugin);
    pm.Initialize(registry);
    ghost var second :| registry.calls == [InitCall(plugin)] + second &&
      OnePerEntry(second, InitializeOp, registry.plugins, PendingInit(registry.plugins));
    OneServicesCall(second, plugin);
  }

  /**
    `InitializeOnce`, called twice after the services plugin has registered:
    the first call initialises it and the second finds nothing pending.
   */
  method InitializeOnceTwice(pm: PluginManager, registry: Registry, plugin: PluginRef)
    requires FreshlyRegistered(registry, plugin)
    modifies registry
    ensures registry.calls == [InitCall(plugin)]
  {
    InitializeTwiceRepeats(plugin);
    pm.InitializeOnce(registry);
    ghost var first :| registry.calls == [] + first &&
      OnePerEntry(first, InitializeOp, map["services" := PluginEntry("services", false, plugin)], {"services"});
    OneServicesCall(first, plugin);
    pm.InitializeOnce(registry);
    ghost var second :| registry.calls == [InitCall(plugin)] + second &&
      OnePerEntry(second, InitializeOp, old(registry.plugins), PendingInit(MarkedInitialized(old(registry.plugins))));
    assert |second| == 0;
  }

  /** Once every pending entry is marked, a further `InitializeOnce` initialises nothing. */
  lemma {:induction false} InitializeOnceSettles(plugins: map<string, PluginEntry>)
    ensures PendingInit(MarkedInitialized(plugins)) == {}
  {
    forall n | n in MarkedInitialized(plugins)
      ensures MarkedInitialized(plugins)[n].isInitialized
    {
    }
  }

  /** A plugin that registers itself, as the services plugin does, is initialised only once by `InitializeOnce`. */
  lemma RegisteredThenMarked(plugins: map<string, PluginEntry>, name: string, plugin: PluginRef)
    ensures name in PendingInit(plugins[name := PluginEntry(name, false, plugin)])
    ensures name !in PendingInit(MarkedInitialized(plugins[name := PluginEntry(name, false, plugin)]))
  {
  }
}
