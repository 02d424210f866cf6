/**
 * The scoped registry of data types of the Rust front end
 * (crates/egg-context/src/context_manager.rs): type ids index one global
 * vector of data types, names are registered in the active context, and a
 * name is looked up from the active context outwards through the parents.
 */
module ContextManager {
  import opened Wrappers
  import opened DataTypes

  type ContextId = nat

  /** context.rs: the names registered in a context, and the context it was pushed from. */
  datatype Context = Context(types: map<string, TypeId>, parent: Option<ContextId>)

  /** Every parent was created before its child, so a walk through the parents ends. */
  predicate ParentsBefore(contexts: seq<Context>)
  {
    forall i :: 0 <= i < |contexts| && contexts[i].parent.Some? ==> contexts[i].parent.value < i
  }

  /** The lookup of get_data_type_id from context `id`: its own binding, else its parent's lookup. */
  function Resolve(contexts: seq<Context>, id: ContextId, name: string): Option<TypeId>
    requires id < |contexts| && ParentsBefore(contexts)
    decreases id
  {
    if name in contexts[id].types then Some(contexts[id].types[name])
    else match contexts[id].parent
      case None => None
      case Some(p) => Resolve(contexts, p, name)
  }

  /** Contexts pushed later do not change what the earlier ones resolve. */
  lemma {:induction false} ResolveAppend(contexts: seq<Context>, extra: seq<Context>, id: ContextId, name: string)
    requires id < |contexts| && ParentsBefore(contexts) && ParentsBefore(contexts + extra)
    ensures Resolve(contexts + extra, id, name) == Resolve(contexts, id, name)
    decreases id
  {
    assert (contexts + extra)[id] == contexts[id];
    if name !in contexts[id].types && contexts[id].parent.Some? {
      ResolveAppend(contexts, extra, contexts[id].parent.value, name);
    }
  }

  /** A name registered in context `c` changes only the lookups walking through `c`: those from contexts before it are unchanged. */
  lemma {:induction false} ResolveOtherContext(contexts: seq<Context>, c: ContextId, types: map<string, TypeId>, id: ContextId, name: string)
    requires c < |contexts| && id < c && ParentsBefore(contexts)
    ensures ParentsBefore(contexts[c := contexts[c].(types := types)])
    ensures Resolve(contexts[c := contexts[c].(types := types)], id, name) == Resolve(contexts, id, name)
    decreases id
  {
    var updated := contexts[c := contexts[c].(types := types)];
    assert ParentsBefore(updated) by {
      forall i | 0 <= i < |updated| && updated[i].parent.Some?
        ensures updated[i].parent.value < i
      {
        assert updated[i].parent == contexts[i].parent;
      }
    }
    if name !in contexts[id].types && contexts[id].parent.Some? {
      ResolveOtherContext(contexts, c, types, contexts[id].parent.value, name);
    }
  }

  /** Binding one name in context `c` leaves the lookup of every other name unchanged. */
  lemma {:induction false} ResolveOtherName(contexts: seq<Context>, c: ContextId, n: string, t: TypeId, id: ContextId, name: string)
    requires c < |contexts| && id < |contexts| && ParentsBefore(contexts) && name != n
    ensures ParentsBefore(contexts[c := contexts[c].(types := contexts[c].types[n := t])])
    ensures Resolve(contexts[c := contexts[c].(types := contexts[c].types[n := t])], id, name) == Resolve(contexts, id, name)
    decreases id
  {
    var updated := contexts[c := contexts[c].(types := contexts[c].types[n := t])];
    assert ParentsBefore(updated) by {
      forall i | 0 <= i < |updated| && updated[i].parent.Some?
        ensures updated[i].parent.value < i
      {
        assert updated[i].parent == contexts[i].parent;
      }
    }
    assert name in updated[id].types <==> name in contexts[id].types;
    if name !in contexts[id].types && contexts[id].parent.Some? {
      ResolveOtherName(contexts, c, n, t, contexts[id].parent.value, name);
    }
  }

  class ContextManager {
    var contexts: seq<Context>
    var dataTypes: seq<DataType>
    var activeContext: ContextId

    /** The active context exists, parents come first, and every registered id names a stored type. */
    ghost predicate Valid()
      reads this
    {
      && activeContext < |contexts|
      && ParentsBefore(contexts)
      && (forall i, n :: 0 <= i < |contexts| && n in contexts[i].types ==> contexts[i].types[n] < |dataTypes|)
    }

    /** new: String is type 0, registered under its name in the root context, which is active. */
    constructor()
      ensures Valid()
      ensures dataTypes == [StringType] && activeContext == 0
      ensures contexts == [Context(map[GetName(StringType) := 0], None)]
    {
      dataTypes := [StringType];
      contexts := [Context(map[GetName(StringType) := 0], None)];
      activeContext := 0;
    }

    /** add_data_type: the composite gets the next id and its name is registered in the active context only. */
    method AddDataType(newComposite: CompositeTypeDef)
      requires Valid()
      modifies this
      ensures Valid()
      ensures dataTypes == old(dataTypes) + [CompositeType(newComposite)]
      ensures contexts == old(contexts)[old(activeContext) :=
        old(contexts)[old(activeContext)].(types := old(contexts)[old(activeContext)].types[newComposite.name := |old(dataTypes)|])]
      ensures activeContext == old(activeContext)
    {
      var name := newComposite.name;
      var position := |dataTypes|;
      dataTypes := dataTypes + [CompositeType(newComposite)];
      contexts := contexts[activeContext := contexts[activeContext].(types := contexts[activeContext].types[name := position])];
      assert ParentsBefore(contexts) by {
        forall i | 0 <= i < |contexts| && contexts[i].parent.Some?
          ensures contexts[i].parent.value < i
        {
          assert contexts[i].parent == old(contexts)[i].parent;
        }
      }
    }

    /** get_data_type: the stored type, or an error for an id past the end. */
    function GetDataType(dataType: TypeId): (r: Result<DataType, Error>)
      reads this
      ensures r == TypeAt(dataTypes, dataType)
    {
      TypeAt(dataTypes, dataType)
    }

    /** get_data_type_id: from the active context through its parents, the first binding of the name. */
    method GetDataTypeId(name: string) returns (r: Option<TypeId>)
      requires Valid()
      ensures r == Resolve(contexts, activeContext, name)
    {
      var currentContextId: Option<ContextId> := Some(activeContext);
      while currentContextId.Some?
        invariant currentContextId.Some? ==> currentContextId.value < |contexts|
        invariant currentContextId.Some? ==> Resolve(contexts, activeContext, name) == Resolve(contexts, currentContextId.value, name)
        invariant currentContextId.None? ==> Resolve(contexts, activeContext, name) == None
        decreases if currentContextId.Some? then currentContextId.value + 1 else 0
      {
        var context := contexts[currentContextId.value];
        if name in context.types {
          return Some(context.types[name]);
        }
        currentContextId := context.parent;
      }
      return None;
    }

    /** get_required_data_type_id: an unbound name is an error. */
    method GetRequiredDataTypeId(name: string) returns (r: Result<TypeId, Error>)
      requires Valid()
      ensures Resolve(contexts, activeContext, name).None? ==> r == Failure(MissingRequiredDataTypeID(name))
      ensures Resolve(contexts, activeContext, name).Some? ==> r == Success(Resolve(contexts, activeContext, name).value)
    {
      var id := GetDataTypeId(name);
      if id.None? {
        return Failure(MissingRequiredDataTypeID(name));
      }
      return Success(id.value);
    }

    /** push_context: a new empty context whose parent is the active one becomes active. */
    method PushContext()
      requires Valid()
      modifies this
      ensures Valid()
      ensures contexts == old(contexts) + [Context(map[], Some(old(activeContext)))]
      ensures activeContext == |old(contexts)| && dataTypes == old(dataTypes)
    {
      contexts := contexts + [Context(map[], Some(activeContext))];
      activeContext := |contexts| - 1;
      assert ParentsBefore(contexts) by {
        forall i | 0 <= i < |contexts| && contexts[i].parent.Some?
          ensures contexts[i].parent.value < i
        {
          if i < |old(contexts)| {
            assert contexts[i] == old(contexts)[i];
          }
        }
      }
    }
  }

  /** A new manager finds String as type 0, and the type stored there is named String. */
  lemma {:induction false} NewFindsString()
    ensures Resolve([Context(map[GetName(StringType) := 0], None)], 0, "String") == Some(0)
    ensures GetName([StringType][0]) == "String"
  {
  }

  /** A pushed context starts empty, so it resolves every name as the context it was pushed from does. */
  lemma {:induction false} PushedInherits(contexts: seq<Context>, active: ContextId, name: string)
    requires active < |contexts| && ParentsBefore(contexts)
    ensures ParentsBefore(contexts + [Context(map[], Some(active))])
    ensures Resolve(contexts + [Context(map[], Some(active))], |contexts|, name) == Resolve(contexts, active, name)
  {
    var pushed := contexts + [Context(map[], Some(active))];
    assert ParentsBefore(pushed) by {
      forall i | 0 <= i < |pushed| && pushed[i].parent.Some?
        ensures pushed[i].parent.value < i
      {
        if i < |contexts| {
          assert pushed[i] == contexts[i];
        }
      }
    }
    assert pushed[|contexts|] == Context(map[], Some(active));
    ResolveAppend(contexts, [Context(map[], Some(active))], active, name);
  }

  /**
   * After add_data_type the active context resolves the new name to the new
   * id, other names resolve as before everywhere, and contexts created before
   * the active one do not see the new name.
   */
  lemma {:induction false} AddedIsScoped(contexts: seq<Context>, active: ContextId, n: string, t: TypeId)
    requires active < |contexts| && ParentsBefore(contexts)
    ensures var updated := contexts[active := contexts[active].(types := contexts[active].types[n := t])];
      && ParentsBefore(updated)
      && Resolve(updated, active, n) == Some(t)
      && (forall id, name :: 0 <= id < |contexts| && name != n ==> Resolve(updated, id, name) == Resolve(contexts, id, name))
      && (forall id :: 0 <= id < active ==> Resolve(updated, id, n) == Resolve(contexts, id, n))
  {
    var updated := contexts[active := contexts[active].(types := contexts[active].types[n := t])];
    assert ParentsBefore(updated) by {
      forall i | 0 <= i < |updated| && updated[i].parent.Some?
        ensures updated[i].parent.value < i
      {
        assert updated[i].parent == contexts[i].parent;
      }
    }
    forall id, name | 0 <= id < |contexts| && name != n
      ensures Resolve(updated, id, name) == Resolve(contexts, id, name)
    {
      ResolveOtherName(contexts, active, n, t, id, name);
    }
    forall id | 0 <= id < active
      ensures Resolve(updated, id, n) == Resolve(contexts, id, n)
    {
      ResolveOtherContext(contexts, active, contexts[active].types[n := t], id, n);
    }
  }
}
