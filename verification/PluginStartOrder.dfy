/** The order in which the plugin manager starts its plugins: a depth-first search that must
    put every dependency before its dependents, or say why it cannot. */
module PluginStartOrder {
  import opened Wrappers
  import Order

  type PluginId = string

  datatype Manifest = Manifest(id: PluginId, dependencies: seq<PluginId>, hooks: seq<string>)

  datatype Candidate = Candidate(manifest: Manifest, defaultEnabled: bool)

  /** The part of the configuration the manager consults: a decision by id and default. */
  datatype PluginsConfig = PluginsConfig(isEnabled: (PluginId, bool) -> bool)

  type Discovered = map<PluginId, Candidate>

  datatype StartOrderError =
    | CycleDetected(at: PluginId)
    | DisabledDependency(plugin: PluginId, dependency: PluginId)
    | PluginNotFound(id: PluginId)

  predicate Enabled(discovered: Discovered, config: PluginsConfig, id: PluginId)
    requires id in discovered
  {
    config.isEnabled(id, discovered[id].defaultEnabled)
  }

  /** a lists b, and both were discovered. */
  predicate Depends(discovered: Discovered, a: PluginId, b: PluginId)
  {
    a in discovered && b in discovered && b in discovered[a].manifest.dependencies
  }

  ghost predicate IsPath(discovered: Discovered, path: seq<PluginId>)
  {
    && (forall p :: p in path ==> p in discovered)
    && forall i :: 0 <= i < |path| - 1 ==> Depends(discovered, path[i], path[i + 1])
  }

  ghost predicate IsCycle(discovered: Discovered, path: seq<PluginId>)
  {
    IsPath(discovered, path) && |path| >= 2 && path[0] == path[|path| - 1]
  }

  ghost predicate HasCycle(discovered: Discovered)
  {
    exists path :: IsCycle(discovered, path)
  }

  ghost predicate HasDisabledDependency(discovered: Discovered, config: PluginsConfig)
  {
    exists a, b :: Depends(discovered, a, b) && !Enabled(discovered, config, b)
  }

  ghost predicate NoDuplicates(ids: seq<PluginId>)
  {
    forall i, j :: 0 <= i < j < |ids| ==> ids[i] != ids[j]
  }

  /** Every discovered dependency of a is enabled and among `earlier`. */
  ghost predicate DependenciesAmong(discovered: Discovered, config: PluginsConfig, a: PluginId, earlier: seq<PluginId>)
  {
    forall b :: Depends(discovered, a, b) ==> Enabled(discovered, config, b) && b in earlier
  }

  ghost predicate DependenciesFirst(discovered: Discovered, config: PluginsConfig, order: seq<PluginId>)
  {
    forall i :: 0 <= i < |order| ==> DependenciesAmong(discovered, config, order[i], order[..i])
  }

  /** A duplicate-free permutation of the discovered plugins, dependencies first. */
  ghost predicate IsStartOrder(discovered: Discovered, config: PluginsConfig, order: seq<PluginId>)
  {
    && NoDuplicates(order)
    && (forall id :: id in order <==> id in discovered)
    && DependenciesFirst(discovered, config, order)
  }

  /** Why a search may stop: each error names a witness in the dependency graph. */
  ghost predicate Justified(discovered: Discovered, config: PluginsConfig, e: StartOrderError)
  {
    match e
    case CycleDetected(at) => exists path :: IsCycle(discovered, path) && path[0] == at
    case DisabledDependency(a, b) => Depends(discovered, a, b) && !Enabled(discovered, config, b)
    case PluginNotFound(_) => false
  }

  lemma {:induction false} PathDescends(discovered: Discovered, config: PluginsConfig, order: seq<PluginId>,
                                        path: seq<PluginId>, i: nat) returns (j: nat)
    requires IsStartOrder(discovered, config, order) && IsPath(discovered, path) && |path| >= 2
    requires i < |order| && order[i] == path[0]
    ensures j < i && order[j] == path[|path| - 1]
  {
    assert Depends(discovered, path[0], path[1]);
    assert DependenciesAmong(discovered, config, order[i], order[..i]);
    var k :| 0 <= k < |order[..i]| && order[..i][k] == path[1];
    j := k;
    if |path| > 2 {
      var rest := path[1..];
      assert forall m {:trigger rest[m]} :: 0 <= m < |rest| - 1 ==> Depends(discovered, path[m + 1], path[m + 2]);
      j := PathDescends(discovered, config, order, rest, k);
    }
  }

  /** A start order is a certificate that nothing stands in the way. */
  lemma StartOrderExcludesFailures(discovered: Discovered, config: PluginsConfig, order: seq<PluginId>)
    requires IsStartOrder(discovered, config, order)
    ensures !HasCycle(discovered) && !HasDisabledDependency(discovered, config)
  {
    if path :| IsCycle(discovered, path) {
      assert path[0] in order;
      var i :| 0 <= i < |order| && order[i] == path[0];
      var j := PathDescends(discovered, config, order, path, i);
      assert false;
    }
    forall a, b | Depends(discovered, a, b) ensures Enabled(discovered, config, b) {
      var i :| 0 <= i < |order| && order[i] == a;
      assert DependenciesAmong(discovered, config, order[i], order[..i]);
    }
  }

  /** The sets and the list that the search threads through its recursive calls. */
  class StartOrderSearch {
    const discovered: Discovered
    const config: PluginsConfig
    var visiting: set<PluginId>
    var visited: set<PluginId>
    var ordered: seq<PluginId>

    /** path is the stack of calls in progress: a real dependency path, and exactly `visiting`. */
    ghost predicate Valid(path: seq<PluginId>)
      reads this
    {
      && IsPath(discovered, path)
      && (forall p :: p in path <==> p in visiting)
      && visited !! visiting
      && NoDuplicates(ordered)
      && (forall id :: id in ordered <==> id in visited)
      && (forall id :: id in visited ==> id in discovered)
      && DependenciesFirst(discovered, config, ordered)
    }

    constructor (discovered: Discovered, config: PluginsConfig)
      ensures this.discovered == discovered && this.config == config
      ensures Valid([]) && ordered == []
    {
      this.discovered, this.config := discovered, config;
      visiting, visited, ordered := {}, {}, [];
    }

    method Visit(id: PluginId, ghost path: seq<PluginId>) returns (r: Result<(), StartOrderError>)
      requires Valid(path)
      requires path != [] ==> Depends(discovered, path[|path| - 1], id)
      modifies this
      ensures r.Ok? ==> Valid(path) && id in visited && old(visited) <= visited && old(ordered) <= ordered
      ensures r.Err? ==> Justified(discovered, config, r.error) || (r.error == PluginNotFound(id) && id !in discovered)
      decreases discovered.Keys - visiting
    {
      if id in visited {
        return Ok(());
      }
      if id in visiting {
        CycleThrough(discovered, path, id);
        return Err(CycleDetected(id));
      }
      visiting := visiting + {id};
      if id !in discovered {
        return Err(PluginNotFound(id));
      }
      ghost var path' := path + [id];
      PathExtended(discovered, path, id);
      var dependencies := discovered[id].manifest.dependencies;
      for k := 0 to |dependencies|
        invariant Valid(path') && old(visited) <= visited && old(ordered) <= ordered
        invariant visiting == old(visiting) + {id}
        invariant forall m :: 0 <= m < k && dependencies[m] in discovered ==>
          dependencies[m] in visited && Enabled(discovered, config, dependencies[m])
      {
        var dependency := dependencies[k];
        if dependency in discovered {
          assert Depends(discovered, id, dependency);
          if !config.isEnabled(dependency, discovered[dependency].defaultEnabled) {
            return Err(DisabledDependency(id, dependency));
          }
          var sub := Visit(dependency, path');
          if sub.Err? {
            return sub;
          }
          assert visiting == old(visiting) + {id} by {
            assert forall p :: p in visiting <==> p in path';
          }
        }
      }
      assert id in visiting;
      ListedAreEarlier(discovered, config, id, ordered);
      OrderExtended(discovered, config, ordered, id);
      visiting := visiting - {id};
      visited := visited + {id};
      ordered := ordered + [id];
      return Ok(());
    }
  }

  lemma PathExtended(discovered: Discovered, path: seq<PluginId>, id: PluginId)
    requires IsPath(discovered, path) && id in discovered
    requires path != [] ==> Depends(discovered, path[|path| - 1], id)
    ensures IsPath(discovered, path + [id])
  {
    var path' := path + [id];
    forall i | 0 <= i < |path'| - 1 ensures Depends(discovered, path'[i], path'[i + 1]) {
      if i < |path| - 1 {
        assert Depends(discovered, path[i], path[i + 1]);
      }
    }
  }

  lemma ListedAreEarlier(discovered: Discovered, config: PluginsConfig, id: PluginId, ordered: seq<PluginId>)
    requires id in discovered
    requires var dependencies := discovered[id].manifest.dependencies;
      forall m :: 0 <= m < |dependencies| && dependencies[m] in discovered ==>
        dependencies[m] in ordered && Enabled(discovered, config, dependencies[m])
    ensures DependenciesAmong(discovered, config, id, ordered)
  {
    var dependencies := discovered[id].manifest.dependencies;
    forall b | Depends(discovered, id, b) ensures Enabled(discovered, config, b) && b in ordered {
      var m :| 0 <= m < |dependencies| && dependencies[m] == b;
    }
  }

  lemma OrderExtended(discovered: Discovered, config: PluginsConfig, ordered: seq<PluginId>, id: PluginId)
    requires DependenciesFirst(discovered, config, ordered) && DependenciesAmong(discovered, config, id, ordered)
    ensures DependenciesFirst(discovered, config, ordered + [id])
  {
    hide DependenciesAmong;
    var more := ordered + [id];
    forall i | 0 <= i < |more| ensures DependenciesAmong(discovered, config, more[i], more[..i]) {
      if i < |ordered| {
        assert more[..i] == ordered[..i];
      } else {
        assert more[..i] == ordered;
      }
    }
  }

  lemma CycleThrough(discovered: Discovered, path: seq<PluginId>, id: PluginId)
    requires IsPath(discovered, path) && id in path && Depends(discovered, path[|path| - 1], id)
    ensures exists cycle :: IsCycle(discovered, cycle) && cycle[0] == id
  {
    var k :| 0 <= k < |path| && path[k] == id;
    var cycle := path[k..] + [id];
    forall i | 0 <= i < |cycle| - 1 ensures Depends(discovered, cycle[i], cycle[i + 1]) {
      assert cycle[i] == path[k + i];
      assert i + 1 < |cycle| - 1 ==> cycle[i + 1] == path[k + i + 1];
    }
    assert IsCycle(discovered, cycle) && cycle[0] == id;
  }

  lemma JustifiedErrorsAreFailures(discovered: Discovered, config: PluginsConfig, e: StartOrderError)
    requires Justified(discovered, config, e)
    ensures HasCycle(discovered) || HasDisabledDependency(discovered, config)
  {
  }

  lemma AllVisited(search: StartOrderSearch, keys: seq<PluginId>)
    requires search.Valid([])
    requires forall id :: id in search.discovered ==> id in keys
    requires forall m :: 0 <= m < |keys| ==> keys[m] in search.visited
    ensures IsStartOrder(search.discovered, search.config, search.ordered)
  {
    hide DependenciesFirst, IsPath;
  }

  /** Succeeds exactly when the graph has neither a cycle nor a disabled dependency; "not found"
      is unreachable, and every other error names what it found. */
  method ResolveStartOrder(discovered: Discovered, config: PluginsConfig)
    returns (r: Result<seq<PluginId>, StartOrderError>)
    ensures r.Ok? <==> !HasCycle(discovered) && !HasDisabledDependency(discovered, config)
    ensures r.Ok? ==> IsStartOrder(discovered, config, r.value)
    ensures r.Err? ==> Justified(discovered, config, r.error)
  {
    hide DependenciesFirst, IsPath, IsCycle, Order.AtMost, NoDuplicates;
    var search := new StartOrderSearch(discovered, config);
    var keys := Order.Ascending(discovered.Keys);
    for k := 0 to |keys|
      invariant search.Valid([])
      invariant forall m :: 0 <= m < k ==> keys[m] in search.visited
    {
      assert keys[k] in discovered;
      var sub := search.Visit(keys[k], []);
      if sub.Err? {
        JustifiedErrorsAreFailures(discovered, config, sub.error);
        return Err(sub.error);
      }
    }
    AllVisited(search, keys);
    StartOrderExcludesFailures(discovered, config, search.ordered);
    return Ok(search.ordered);
  }
}
