/**
 * The interpreter's memory (src/runtime/memory.py): instances are stored
 * under reference ids handed out 0, 1, 2, ... and never reused, names are
 * bound to ids in a stack of scopes, and popping a scope frees every
 * instance that no name reaches through the dependency sets.
 */
module Memory {
  import opened Wrappers
  import opened Sets

  datatype Instance<T> = Instance(data: T, deps: set<int>, isConst: bool)

  /** What the assertions of update_var and get_object_by_name reject. */
  datatype MemoryError = Unbound(name: string) | ConstantBinding(name: string) | NoInstance(refId: int)

  type Scope = map<string, int>

  /** get_id: the id bound to the name in the innermost scope that binds it. */
  function Lookup(scopes: seq<Scope>, name: string): Option<int>
    decreases |scopes|
  {
    if scopes == [] then None
    else if name in scopes[|scopes| - 1] then Some(scopes[|scopes| - 1][name])
    else Lookup(scopes[..|scopes| - 1], name)
  }

  /** A name is unbound exactly when no scope binds it; otherwise the id comes from the innermost scope binding it. */
  lemma {:induction false} LookupInnermost(scopes: seq<Scope>, name: string)
    ensures Lookup(scopes, name).None? <==> forall i :: 0 <= i < |scopes| ==> name !in scopes[i]
    ensures Lookup(scopes, name).Some? ==>
      exists i :: 0 <= i < |scopes| && name in scopes[i] && scopes[i][name] == Lookup(scopes, name).value
        && forall j :: i < j < |scopes| ==> name !in scopes[j]
    decreases |scopes|
  {
    if scopes != [] && name !in scopes[|scopes| - 1] {
      var init := scopes[..|scopes| - 1];
      LookupInnermost(init, name);
      assert forall i :: 0 <= i < |init| ==> init[i] == scopes[i];
    }
  }

  /** The ids bound to some name in some scope. */
  function NamedIds(scopes: seq<Scope>): set<int>
  {
    set i, name | 0 <= i < |scopes| && name in scopes[i] :: scopes[i][name]
  }

  /** The dependencies of the instances among `ids`. */
  function DirectDeps<T>(instances: map<int, Instance<T>>, ids: set<int>): set<int>
  {
    set n, d | n in ids && n in instances && d in instances[n].deps :: d
  }

  /** Every id that some instance depends on. */
  function AllDeps<T>(instances: map<int, Instance<T>>): set<int>
  {
    set n, d | n in instances && d in instances[n].deps :: d
  }

  /** What _get_used_ids returns as written: the named ids and their direct dependencies. */
  function UsedAsWritten<T>(instances: map<int, Instance<T>>, scopes: seq<Scope>): set<int>
  {
    NamedIds(scopes) + DirectDeps(instances, NamedIds(scopes))
  }

  /** A chain of ids, each one an instance depending on the next. */
  ghost predicate IsPath<T>(instances: map<int, Instance<T>>, path: seq<int>)
  {
    && |path| > 0
    && forall k :: 0 <= k < |path| - 1 ==> path[k] in instances && path[k + 1] in instances[path[k]].deps
  }

  ghost predicate Witness<T>(instances: map<int, Instance<T>>, roots: set<int>, path: seq<int>, id: int)
  {
    IsPath(instances, path) && path[0] in roots && path[|path| - 1] == id
  }

  /** The id is a root or is reached from one through dependencies. */
  ghost predicate Reaches<T>(instances: map<int, Instance<T>>, roots: set<int>, id: int)
  {
    exists path :: Witness(instances, roots, path, id)
  }

  /** Every dependency of an instance in `s` is in `s`. */
  ghost predicate Closed<T>(instances: map<int, Instance<T>>, s: set<int>)
  {
    forall id :: id in s && id in instances ==> instances[id].deps <= s
  }

  lemma {:induction false} PathInClosed<T>(instances: map<int, Instance<T>>, s: set<int>, path: seq<int>)
    requires IsPath(instances, path) && path[0] in s && Closed(instances, s)
    ensures path[|path| - 1] in s
    decreases |path|
  {
    if |path| > 1 {
      var init := path[..|path| - 1];
      assert IsPath(instances, init) by {
        assert forall k :: 0 <= k < |init| ==> init[k] == path[k];
      }
      PathInClosed(instances, s, init);
      assert init[|init| - 1] == path[|path| - 2];
      assert path[|path| - 2] in instances && path[|path| - 1] in instances[path[|path| - 2]].deps;
    }
  }

  /** A closed set holding the roots holds everything they reach. */
  lemma {:induction false} ReachableInClosed<T>(instances: map<int, Instance<T>>, roots: set<int>, s: set<int>, id: int)
    requires roots <= s && Closed(instances, s)
    requires Reaches(instances, roots, id)
    ensures id in s
  {
    var path :| Witness(instances, roots, path, id);
    PathInClosed(instances, s, path);
  }

  /** A scope binding "a" to 0, where 0 depends on 1 and 1 on 2. */
  const CHAIN: map<int, Instance<int>> := map[0 := Instance(100, {1}, false), 1 := Instance(101, {2}, false), 2 := Instance(102, {}, false)]
  const CHAIN_SCOPES: seq<Scope> := [map["a" := 0]]

  /** As written, id 2 is reached from the name "a" and yet is not among the used ids, so it is freed. */
  lemma {:induction false} AsWrittenMissesChain()
    ensures Reaches(CHAIN, NamedIds(CHAIN_SCOPES), 2)
    ensures 2 !in UsedAsWritten(CHAIN, CHAIN_SCOPES)
    ensures !Closed(CHAIN, UsedAsWritten(CHAIN, CHAIN_SCOPES))
  {
    assert NamedIds(CHAIN_SCOPES) == {0} by {
      assert CHAIN_SCOPES[0]["a"] == 0;
    }
    assert Witness(CHAIN, {0}, [0, 1, 2], 2);
    assert DirectDeps(CHAIN, {0}) == {1} by {
      assert 1 in CHAIN[0].deps;
    }
  }

  /** The sets of ids a traversal visits, left by a step that moves `added` ids from outside into the visited set. */
  lemma {:induction false} Shrinks(universe: set<int>, discovered: set<int>, added: set<int>)
    requires added <= universe && added !! discovered && added != {}
    ensures |universe - (discovered + added)| < |universe - discovered|
  {
    assert universe - discovered == (universe - (discovered + added)) + added;
  }

  /** One more dependency step from a reached instance reaches its dependency. */
  lemma {:induction false} ReachesStep<T>(instances: map<int, Instance<T>>, roots: set<int>, from: int, d: int)
    requires Reaches(instances, roots, from) && from in instances && d in instances[from].deps
    ensures Reaches(instances, roots, d)
  {
    var path :| Witness(instances, roots, path, from);
    var longer := path + [d];
    assert forall k :: 0 <= k < |path| ==> longer[k] == path[k];
    assert Witness(instances, roots, longer, d);
  }

  lemma {:induction false} DepsInAll<T>(instances: map<int, Instance<T>>, n: int)
    requires n in instances
    ensures instances[n].deps <= AllDeps(instances)
  {
    forall d | d in instances[n].deps
      ensures d in AllDeps(instances)
    {
      assert n in instances && d in instances[n].deps;
    }
  }

  class Memory<T> {
    var instances: map<int, Instance<T>>
    var scopes: seq<Scope>
    var nextRefId: nat

    /** Every id is below the counter, and every name is bound to a live instance. */
    ghost predicate Valid()
      reads this
    {
      && (forall id :: id in instances ==> id < nextRefId)
      && NamedIds(scopes) <= instances.Keys
    }

    /** A memory with no instances and one empty scope. */
    constructor()
      ensures Valid()
      ensures instances == map[] && scopes == [map[]] && nextRefId == 0
    {
      instances := map[];
      scopes := [map[]];
      nextRefId := 0;
    }

    /** __next_ref_id: the counter before it is incremented. */
    method NextRefId() returns (id: nat)
      modifies this
      ensures id == old(nextRefId) && nextRefId == old(nextRefId) + 1
      ensures instances == old(instances) && scopes == old(scopes)
    {
      id := nextRefId;
      nextRefId := nextRefId + 1;
    }

    /** store: binds the name in the innermost scope. */
    method Store(name: string, refId: int)
      requires scopes != []
      modifies this
      ensures scopes == old(scopes)[|old(scopes)| - 1 := old(scopes)[|old(scopes)| - 1][name := refId]]
      ensures instances == old(instances) && nextRefId == old(nextRefId)
    {
      scopes := scopes[|scopes| - 1 := scopes[|scopes| - 1][name := refId]];
    }

    /** new: stores the instance under the next id and, when a name is given, binds it in the innermost scope. */
    method New(data: T, deps: Option<set<int>>, name: Option<string>, isConst: bool)
      requires Valid()
      requires name.Some? ==> scopes != []
      modifies this
      ensures Valid()
      ensures old(nextRefId) !in old(instances)
      ensures instances == old(instances)[old(nextRefId) := Instance(data, if deps.Some? then deps.value else {}, isConst)]
      ensures nextRefId == old(nextRefId) + 1
      ensures name.None? ==> scopes == old(scopes)
      ensures name.Some? ==> scopes == old(scopes)[|old(scopes)| - 1 := old(scopes)[|old(scopes)| - 1][name.value := old(nextRefId)]]
    {
      var refId := NextRefId();
      instances := instances[refId := Instance(data, if deps.Some? then deps.value else {}, isConst)];
      if name.Some? {
        ghost var before := scopes;
        Store(name.value, refId);
        forall id | id in NamedIds(scopes)
          ensures id in instances
        {
          var i, n :| 0 <= i < |scopes| && n in scopes[i] && scopes[i][n] == id;
          if !(i == |scopes| - 1 && n == name.value) {
            assert before[i][n] == id;
          }
        }
      }
    }

    /**
     * update_var: a name no scope binds, or one bound to a constant, is an
     * error; otherwise the new value gets a added id bound to the name in the
     * innermost scope, which shadows a binding in an outer scope.
     */
    method UpdateVar(name: string, newValue: T, deps: Option<set<int>>) returns (r: Result<(), MemoryError>)
      requires Valid()
      modifies this
      ensures Valid()
      ensures Lookup(old(scopes), name).Some? ==> Lookup(old(scopes), name).value in old(instances)
      ensures Lookup(old(scopes), name).None? ==>
        r == Failure(Unbound(name)) && instances == old(instances) && scopes == old(scopes) && nextRefId == old(nextRefId)
      ensures Lookup(old(scopes), name).Some? && old(instances)[Lookup(old(scopes), name).value].isConst ==>
        r == Failure(ConstantBinding(name)) && instances == old(instances) && scopes == old(scopes) && nextRefId == old(nextRefId)
      ensures Lookup(old(scopes), name).Some? && !old(instances)[Lookup(old(scopes), name).value].isConst ==>
        && r == Success(())
        && instances == old(instances)[old(nextRefId) := Instance(newValue, if deps.Some? then deps.value else {}, false)]
        && scopes == old(scopes)[|old(scopes)| - 1 := old(scopes)[|old(scopes)| - 1][name := old(nextRefId)]]
        && nextRefId == old(nextRefId) + 1
    {
      LookupInnermost(scopes, name);
      var oldId := GetId(name);
      if oldId.None? {
        return Failure(Unbound(name));
      }
      assert oldId.value in NamedIds(scopes);
      if instances[oldId.value].isConst {
        return Failure(ConstantBinding(name));
      }
      New(newValue, deps, Some(name), false);
      return Success(());
    }

    /** current_scope: the innermost scope. */
    function CurrentScope(): (s: Scope)
      requires scopes != []
      reads this
      ensures s == scopes[|scopes| - 1]
    {
      scopes[|scopes| - 1]
    }

    /** push_scope: a new empty innermost scope. */
    method PushScope()
      requires Valid()
      modifies this
      ensures Valid()
      ensures scopes == old(scopes) + [map[]]
      ensures instances == old(instances) && nextRefId == old(nextRefId)
    {
      scopes := scopes + [map[]];
      assert NamedIds(scopes) <= NamedIds(old(scopes)) by {
        forall id | id in NamedIds(scopes)
          ensures id in NamedIds(old(scopes))
        {
          var i, n :| 0 <= i < |scopes| && n in scopes[i] && scopes[i][n] == id;
          assert old(scopes)[i] == scopes[i];
        }
      }
    }

    /** pop_scope: drops the innermost scope and, when asked to, collects garbage under the remaining scopes. */
    method PopScope(garbageCollect: bool)
      requires Valid() && scopes != []
      modifies this
      ensures Valid()
      ensures scopes == old(scopes)[..|old(scopes)| - 1] && nextRefId == old(nextRefId)
      ensures !garbageCollect ==> instances == old(instances)
      ensures garbageCollect ==>
        && instances.Keys == Survivors(old(instances), scopes)
        && forall id :: id in instances ==> instances[id] == old(instances)[id]
    {
      scopes := scopes[..|scopes| - 1];
      assert NamedIds(scopes) <= NamedIds(old(scopes)) by {
        forall id | id in NamedIds(scopes)
          ensures id in NamedIds(old(scopes))
        {
          var i, n :| 0 <= i < |scopes| && n in scopes[i] && scopes[i][n] == id;
          assert old(scopes)[i] == scopes[i];
        }
      }
      if garbageCollect {
        GarbageCollect();
      }
    }

    /** get_object: the data stored under a live id; any other id is an error, Python's KeyError. */
    function GetObject(refId: int): (r: Result<T, MemoryError>)
      reads this
      ensures r.Success? <==> refId in instances
      ensures r.Success? ==> r.value == instances[refId].data
      ensures r.Failure? ==> r.error == NoInstance(refId)
    {
      if refId in instances then Success(instances[refId].data) else Failure(NoInstance(refId))
    }

    /** get_object_by_name: the data under the id the name is bound to; an unbound name is an error. */
    method GetObjectByName(name: string) returns (r: Result<T, MemoryError>)
      requires Valid()
      ensures Lookup(scopes, name).None? ==> r == Failure(Unbound(name))
      ensures Lookup(scopes, name).Some? ==>
        Lookup(scopes, name).value in instances && r == Success(instances[Lookup(scopes, name).value].data)
    {
      LookupInnermost(scopes, name);
      var refId := GetId(name);
      if refId.None? {
        return Failure(Unbound(name));
      }
      assert refId.value in NamedIds(scopes);
      return Success(instances[refId.value].data);
    }

    /** get_id: the scopes are searched from the innermost out. */
    method GetId(name: string) returns (r: Option<int>)
      ensures r == Lookup(scopes, name)
    {
      var i := |scopes|;
      assert scopes[..i] == scopes;
      while i > 0
        invariant 0 <= i <= |scopes|
        invariant Lookup(scopes, name) == Lookup(scopes[..i], name)
      {
        assert scopes[..i][i - 1] == scopes[i - 1];
        if name in scopes[i - 1] {
          return Some(scopes[i - 1][name]);
        }
        assert scopes[..i][..i - 1] == scopes[..i - 1];
        i := i - 1;
      }
      return None;
    }

    /** free: removes a live instance; any other id is an error (Python's KeyError) and changes nothing. */
    method Free(refId: int) returns (r: Result<(), MemoryError>)
      modifies this
      ensures r.Success? <==> refId in old(instances)
      ensures r.Failure? ==> r.error == NoInstance(refId)
      ensures instances == old(instances) - {refId}
      ensures scopes == old(scopes) && nextRefId == old(nextRefId)
    {
      if refId !in instances {
        return Failure(NoInstance(refId));
      }
      instances := instances - {refId};
      return Success(());
    }

    /** add_dependency: adds an id to the dependencies of a live instance; any other owner is an error (Python's KeyError) and changes nothing. */
    method AddDependency(fromId: int, depId: int) returns (r: Result<(), MemoryError>)
      requires Valid()
      modifies this
      ensures Valid()
      ensures r.Success? <==> fromId in old(instances)
      ensures r.Failure? ==> r.error == NoInstance(fromId) && instances == old(instances)
      ensures r.Success? ==>
        instances == old(instances)[fromId := old(instances)[fromId].(deps := old(instances)[fromId].deps + {depId})]
      ensures scopes == old(scopes) && nextRefId == old(nextRefId)
    {
      if fromId !in instances {
        return Failure(NoInstance(fromId));
      }
      instances := instances[fromId := instances[fromId].(deps := instances[fromId].deps + {depId})];
      return Success(());
    }

    /** garbage_collect: frees every instance the named ids do not reach, and leaves the others as they were. */
    method GarbageCollect()
      requires Valid()
      modifies this
      ensures Valid()
      ensures instances.Keys == Survivors(old(instances), scopes)
      ensures forall id :: id in instances ==> instances[id] == old(instances)[id]
      ensures scopes == old(scopes) && nextRefId == old(nextRefId)
    {
      var used := GetUsedIds();
      SurvivorsAre(instances, scopes, used);
      FreeAll(instances.Keys - used);
    }

    /** The loop of garbage_collect: frees each of the given live ids in turn. */
    method FreeAll(ids: set<int>)
      requires ids <= instances.Keys
      modifies this
      ensures instances.Keys == old(instances).Keys - ids
      ensures forall id :: id in instances ==> instances[id] == old(instances)[id]
      ensures scopes == old(scopes) && nextRefId == old(nextRefId)
    {
      var toFree := ids;
      while toFree != {}
        invariant toFree <= ids
        invariant instances.Keys == old(instances).Keys - (ids - toFree)
        invariant forall id :: id in instances ==> id in old(instances) && instances[id] == old(instances)[id]
        invariant scopes == old(scopes) && nextRefId == old(nextRefId)
        decreases |toFree|
      {
        var refId := Pick(toFree);
        var freed := Free(refId);
        toFree := toFree - {refId};
      }
    }

    /** _get_used_ids with the frontier extended before the discovered set is updated: exactly the ids a name reaches. */
    method GetUsedIds() returns (used: set<int>)
      requires Valid()
      ensures NamedIds(scopes) <= used && Closed(instances, used)
      ensures forall id :: id in used <==> Reaches(instances, NamedIds(scopes), id)
    {
      used := Traverse(instances, NamedIds(scopes));
    }

    /** _get_used_ids as written: the named ids and their direct dependencies only. */
    method GetUsedIdsAsWritten() returns (used: set<int>)
      requires Valid()
      ensures used == UsedAsWritten(instances, scopes)
    {
      used := TraverseAsWritten(instances, NamedIds(scopes));
    }
  }

  /**
   * The loop of _get_used_ids, corrected: every id taken off the frontier
   * adds its undiscovered dependencies to it. Ids that are not instances are
   * kept but not traversed.
   */
  method Traverse<T>(instances: map<int, Instance<T>>, roots: set<int>) returns (used: set<int>)
    ensures roots <= used && Closed(instances, used)
    ensures forall id :: id in used <==> Reaches(instances, roots, id)
  {
    var discovered := roots;
    var frontier := roots;
    ghost var universe := roots + AllDeps(instances);
    forall id | id in roots
      ensures Reaches(instances, roots, id)
    {
      assert Witness(instances, roots, [id], id);
    }
    while frontier != {}
      invariant Explored(instances, roots, discovered, frontier)
      invariant discovered <= universe
      decreases |universe - discovered|, |frontier|
    {
      var next := Pick(frontier);
      VisitKeeps(instances, roots, discovered, frontier, next);
      frontier := frontier - {next};
      if next in instances {
        var deps := instances[next].deps;
        var added := deps - discovered;
        DepsInAll(instances, next);
        if added != {} {
          Shrinks(universe, discovered, added);
        }
        frontier := frontier + added;
        discovered := discovered + deps;
      }
    }
    used := discovered;
    forall id | Reaches(instances, roots, id)
      ensures id in used
    {
      ReachableInClosed(instances, roots, used, id);
    }
  }

  /**
   * What the traversal keeps: the roots are discovered, so is the frontier,
   * every discovered instance off the frontier has its dependencies
   * discovered, and every discovered id is reached from a root.
   */
  ghost predicate Explored<T>(instances: map<int, Instance<T>>, roots: set<int>, discovered: set<int>, frontier: set<int>)
  {
    && roots <= discovered
    && frontier <= discovered
    && (forall id :: id in discovered && id !in frontier && id in instances ==> instances[id].deps <= discovered)
    && (forall id :: id in discovered ==> Reaches(instances, roots, id))
  }

  /** Taking one id off the frontier and adding its undiscovered dependencies keeps the traversal explored. */
  lemma {:induction false} VisitKeeps<T>(instances: map<int, Instance<T>>, roots: set<int>, discovered: set<int>, frontier: set<int>, next: int)
    requires Explored(instances, roots, discovered, frontier) && next in frontier
    ensures next !in instances ==> Explored(instances, roots, discovered, frontier - {next})
    ensures next in instances ==>
      var deps := instances[next].deps;
      Explored(instances, roots, discovered + deps, frontier - {next} + (deps - discovered))
  {
    if next in instances {
      forall d | d in instances[next].deps
        ensures Reaches(instances, roots, d)
      {
        ReachesStep(instances, roots, next, d);
      }
    }
  }

  /** The loop of _get_used_ids as written: the dependencies are discovered before the frontier is extended by the undiscovered ones, so it never grows. */
  method TraverseAsWritten<T>(instances: map<int, Instance<T>>, roots: set<int>) returns (used: set<int>)
    requires roots <= instances.Keys
    ensures used == roots + DirectDeps(instances, roots)
  {
    var discovered := roots;
    var frontier := roots;
    ghost var visited: set<int> := {};
    while frontier != {}
      invariant frontier <= roots && visited == roots - frontier
      invariant discovered == roots + DirectDeps(instances, visited)
      decreases |frontier|
    {
      var next := Pick(frontier);
      AsWrittenStep(instances, roots, visited, frontier, next);
      frontier := frontier - {next};
      visited := visited + {next};
      discovered := discovered + instances[next].deps;
      frontier := frontier + (instances[next].deps - discovered);
    }
    used := discovered;
  }

  /** One round of the as-written loop: the popped id is visited and no id joins the frontier. */
  lemma {:induction false} AsWrittenStep<T>(instances: map<int, Instance<T>>, roots: set<int>, visited: set<int>, frontier: set<int>, next: int)
    requires roots <= instances.Keys && frontier <= roots && visited == roots - frontier && next in frontier
    ensures var discovered := roots + DirectDeps(instances, visited) + instances[next].deps;
      && frontier - {next} + (instances[next].deps - discovered) == frontier - {next}
      && visited + {next} == roots - (frontier - {next})
      && discovered == roots + DirectDeps(instances, visited + {next})
  {
    DirectDepsAdd(instances, visited, next);
  }

  lemma {:induction false} DirectDepsAdd<T>(instances: map<int, Instance<T>>, s: set<int>, n: int)
    requires n in instances
    ensures DirectDeps(instances, s + {n}) == DirectDeps(instances, s) + instances[n].deps
  {
    forall d | d in instances[n].deps
      ensures d in DirectDeps(instances, s + {n})
    {
      assert n in s + {n};
    }
  }

  /** A single scope binding one name names exactly that id. */
  lemma {:induction false} OneBinding(name: string, id: int)
    ensures NamedIds([map[name := id]]) == {id}
  {
    assert [map[name := id]][0][name] == id;
  }

  /** Once the last scope is popped nothing is named, so a collection frees every instance. */
  lemma {:induction false} NoScopesNoRoots<T>(instances: map<int, Instance<T>>, id: int)
    ensures !Reaches(instances, NamedIds([]), id)
  {
    assert NamedIds([]) == {};
  }

  /** The survivors of a collection: the instances the named ids reach. */
  ghost function Survivors<T>(instances: map<int, Instance<T>>, scopes: seq<Scope>): set<int>
  {
    set id | id in instances && Reaches(instances, NamedIds(scopes), id)
  }

  lemma {:induction false} SurvivorsAre<T>(instances: map<int, Instance<T>>, scopes: seq<Scope>, used: set<int>)
    requires forall id :: id in used <==> Reaches(instances, NamedIds(scopes), id)
    ensures Survivors(instances, scopes) == instances.Keys * used
  {
  }

  const OUTER_A: seq<Scope> := [map["a" := 0]]

  /** test_garbage_collection_depends: "a" (id 0) was made to depend on "b" (id 1), so popping the scope of "b" frees nothing. */
  lemma {:induction false} DependsKeepsInner()
    ensures Survivors(map[0 := Instance(100, {1}, false), 1 := Instance(101, {}, false)], OUTER_A) == {0, 1}
  {
    var inst := map[0 := Instance(100, {1}, false), 1 := Instance(101, {}, false)];
    OneBinding("a", 0);
    assert Witness(inst, {0}, [0], 0);
    assert Witness(inst, {0}, [0, 1], 1);
  }

  /** test_garbage_collection_nonblocking_depends: "b" and "c" depend on "a", which does not keep them alive once their scope is popped. */
  lemma {:induction false} DependentsFreed()
    ensures Survivors(map[0 := Instance(100, {}, false), 1 := Instance(101, {0}, false), 2 := Instance(102, {1}, false)], OUTER_A) == {0}
  {
    var inst := map[0 := Instance(100, {}, false), 1 := Instance(101, {0}, false), 2 := Instance(102, {1}, false)];
    OneBinding("a", 0);
    assert Witness(inst, {0}, [0], 0);
    forall id | Reaches(inst, {0}, id)
      ensures id == 0
    {
      ReachableInClosed(inst, {0}, {0}, id);
    }
  }

  /** test_garbage_collection_circular: "a" and "b" depend on each other; the cycle lives while "a" is named and is collected after the last pop. */
  lemma {:induction false} CycleCollected()
    ensures Survivors(map[0 := Instance(100, {1}, false), 1 := Instance(101, {0}, false)], OUTER_A) == {0, 1}
    ensures Survivors(map[0 := Instance(100, {1}, false), 1 := Instance(101, {0}, false)], []) == {}
  {
    var inst := map[0 := Instance(100, {1}, false), 1 := Instance(101, {0}, false)];
    OneBinding("a", 0);
    assert Witness(inst, {0}, [0], 0);
    assert Witness(inst, {0}, [0, 1], 1);
    forall id | id in inst
      ensures !Reaches(inst, NamedIds([]), id)
    {
      NoScopesNoRoots(inst, id);
    }
  }

  /** test_garbage_collection_basic: popping the scope of "b" (id 1) frees it and keeps "a" (id 0); popping the outermost scope frees "a" too. */
  lemma {:induction false} ScopesPopped()
    ensures Survivors(map[0 := Instance(100, {}, false), 1 := Instance(101, {}, false)], OUTER_A) == {0}
    ensures Survivors(map[0 := Instance(100, {}, false), 1 := Instance(101, {}, false)], []) == {}
  {
    var inst := map[0 := Instance(100, {}, false), 1 := Instance(101, {}, false)];
    OneBinding("a", 0);
    assert Witness(inst, {0}, [0], 0);
    forall id | Reaches(inst, {0}, id)
      ensures id == 0
    {
      ReachableInClosed(inst, {0}, {0}, id);
    }
    forall id | id in inst
      ensures !Reaches(inst, NamedIds([]), id)
    {
      NoScopesNoRoots(inst, id);
    }
  }
}
