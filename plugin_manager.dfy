/** The plugin manager of the event-driven example: a plugin brings concepts
    and sync rules, which are registered on the engine in order, and an
    optional initialisation step. What the initialisation does to the engine
    is outside the model; only whether it fails is. */
module Plugins {
  import opened Wrappers
  import opened Engine

  /** `Object.entries(concepts)` is `concepts`; `initialize` is None when the
      plugin has none, and otherwise the outcome of awaiting it. */
  datatype Plugin = Plugin(name: string, concepts: seq<(string, Concept)>, syncs: seq<SyncRule>,
                           initialize: Option<Result<()>>)

  /** The concept table after registering `entries` one after the other. */
  function Registered(cs: map<string, Concept>, entries: seq<(string, Concept)>): map<string, Concept>
    decreases |entries|
  {
    if entries == [] then cs
    else Registered(cs, entries[..|entries| - 1])[entries[|entries| - 1].0 := entries[|entries| - 1].1]
  }

  /** After registration the table holds exactly the earlier names and the
      names registered. */
  lemma {:induction false} RegisteredNames(cs: map<string, Concept>, entries: seq<(string, Concept)>, n: string)
    ensures n in Registered(cs, entries) <==> n in cs || exists i :: 0 <= i < |entries| && entries[i].0 == n
    decreases |entries|
  {
    if entries != [] {
      var init := entries[..|entries| - 1];
      RegisteredNames(cs, init, n);
      if exists i :: 0 <= i < |init| && init[i].0 == n {
        var i :| 0 <= i < |init| && init[i].0 == n;
        assert entries[i] == init[i];
      }
      if exists i :: 0 <= i < |entries| && entries[i].0 == n {
        var i :| 0 <= i < |entries| && entries[i].0 == n;
        if i < |init| {
          assert init[i] == entries[i];
        }
      }
    }
  }

  /** A name no entry registers keeps its earlier concept. */
  lemma {:induction false} RegisteredKeeps(cs: map<string, Concept>, entries: seq<(string, Concept)>, n: string)
    requires n in cs && forall i :: 0 <= i < |entries| ==> entries[i].0 != n
    ensures n in Registered(cs, entries) && Registered(cs, entries)[n] == cs[n]
    decreases |entries|
  {
    if entries != [] {
      var init := entries[..|entries| - 1];
      assert forall i :: 0 <= i < |init| ==> init[i] == entries[i];
      RegisteredKeeps(cs, init, n);
    }
  }

  /** A later registration replaces an earlier one: a name ends up with the
      concept of its last entry. */
  lemma {:induction false} RegisteredLast(cs: map<string, Concept>, entries: seq<(string, Concept)>, i: nat)
    requires i < |entries| && forall j :: i < j < |entries| ==> entries[j].0 != entries[i].0
    ensures entries[i].0 in Registered(cs, entries) && Registered(cs, entries)[entries[i].0] == entries[i].1
    decreases |entries|
  {
    var init := entries[..|entries| - 1];
    if i < |init| {
      assert init[i] == entries[i];
      assert forall j :: i < j < |init| ==> init[j] == entries[j];
      RegisteredLast(cs, init, i);
    }
  }

  class PluginManager {
    const engine: LegibleEngine
    var loaded: map<string, Plugin>
    /** The keys of `loaded` in first-load order, as a Map iterates. */
    var order: seq<string>

    ghost predicate Valid()
      reads this`loaded, this`order
    {
      (forall i, j :: 0 <= i < j < |order| ==> order[i] != order[j])
      && (forall n :: n in loaded <==> n in order)
    }

    constructor(engine: LegibleEngine)
      ensures this.engine == engine && loaded == map[] && order == [] && Valid()
    {
      this.engine := engine;
      loaded := map[];
      order := [];
    }

    /** `loadPlugin`: every concept, then every sync rule, goes to the
        engine; a failing initialisation leaves them there but the plugin
        unrecorded. A plugin loaded again under its name replaces the
        earlier one and keeps its place. */
    method LoadPlugin(p: Plugin) returns (r: Result<()>)
      requires Valid() && engine.Valid()
      modifies this`loaded, this`order, engine
      ensures Valid() && engine.Valid()
      ensures engine.concepts == Registered(old(engine.concepts), p.concepts)
      ensures engine.syncs == old(engine.syncs) + p.syncs
      ensures engine.actions == old(engine.actions)
      ensures r.Err? <==> p.initialize.Some? && p.initialize.value.Err?
      ensures r.Err? ==> r.error == p.initialize.value.error && loaded == old(loaded) && order == old(order)
      ensures r.Ok? ==> loaded == old(loaded)[p.name := p]
      ensures r.Ok? ==> order == if p.name in old(loaded) then old(order) else old(order) + [p.name]
    {
      RegisterConcepts(p.concepts);
      RegisterSyncs(p.syncs);
      if p.initialize.Some? && p.initialize.value.Err? {
        return Err(p.initialize.value.error);
      }
      if p.name !in loaded {
        order := order + [p.name];
      }
      loaded := loaded[p.name := p];
      return Ok(());
    }

    /** The first loop of `loadPlugin`. */
    method RegisterConcepts(entries: seq<(string, Concept)>)
      requires engine.Valid()
      modifies engine
      ensures engine.Valid()
      ensures engine.concepts == Registered(old(engine.concepts), entries)
      ensures engine.syncs == old(engine.syncs) && engine.actions == old(engine.actions)
    {
      for i := 0 to |entries|
        invariant engine.Valid()
        invariant engine.concepts == Registered(old(engine.concepts), entries[..i])
        invariant engine.syncs == old(engine.syncs) && engine.actions == old(engine.actions)
      {
        engine.RegisterConcept(entries[i].0, entries[i].1);
        assert entries[..i + 1][..i] == entries[..i];
      }
      assert entries[..|entries|] == entries;
    }

    /** The second loop of `loadPlugin`; the cycles each registration finds
        are only logged. */
    method RegisterSyncs(syncs: seq<SyncRule>)
      requires engine.Valid()
      modifies engine
      ensures engine.Valid()
      ensures engine.syncs == old(engine.syncs) + syncs
      ensures engine.concepts == old(engine.concepts) && engine.actions == old(engine.actions)
    {
      for i := 0 to |syncs|
        invariant engine.Valid()
        invariant engine.syncs == old(engine.syncs) + syncs[..i]
        invariant engine.concepts == old(engine.concepts) && engine.actions == old(engine.actions)
      {
        var _ := engine.RegisterSync(syncs[i]);
        assert syncs[..i + 1] == syncs[..i] + [syncs[i]];
      }
      assert syncs[..|syncs|] == syncs;
    }

    /** `getLoadedPlugins`: the recorded names, each once, in first-load order. */
    method GetLoadedPlugins() returns (names: seq<string>)
      requires Valid()
      ensures forall n :: n in names <==> n in loaded
      ensures forall i, j :: 0 <= i < j < |names| ==> names[i] != names[j]
      ensures names == order
    {
      names := order;
    }

    method GetPlugin(name: string) returns (p: Option<Plugin>)
      ensures p.Some? <==> name in loaded
      ensures p.Some? ==> p.value == loaded[name]
    {
      p := if name in loaded then Some(loaded[name]) else None;
    }
  }
}
