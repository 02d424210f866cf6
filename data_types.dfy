/**
 * The data types of the Rust type context (crates/egg-context): the String
 * primitive and composite types with named fields that extend other
 * composites. A new composite inherits every field of its bases, with a
 * field given two different types rejected, and its set of ancestors is its
 * bases plus what each base already extends.
 */
module DataTypes {
  import opened Wrappers
  import opened Sets

  type TypeId = nat

  datatype CompositeTypeDef = CompositeTypeDef(name: string, fields: map<string, TypeId>, ancestors: set<TypeId>)

  datatype DataType = StringType | CompositeType(def: CompositeTypeDef)

  /** The errors of the crate (errors.rs). */
  datatype Error =
    | InvalidContextID(context: nat)
    | InvalidDataTypeID(id: TypeId)
    | MissingRequiredDataTypeID(name: string)
    | CannotExtendPrimitiveType(dataType: string, base: string)
    | ConflictingFieldDefinitions(dataType: string, fieldTypeA: string, fieldTypeB: string)

  /** get_name: a composite's own name; the primitive prints its variant name. */
  function GetName(t: DataType): (n: string)
    ensures t.CompositeType? ==> n == t.def.name
    ensures t.StringType? ==> n == "String"
  {
    match t
    case CompositeType(ctd) => ctd.name
    case StringType => "String"
  }

  /** ContextManager::get_data_type: the type stored under an id; an id past the end is an error. */
  function TypeAt(dataTypes: seq<DataType>, id: TypeId): (r: Result<DataType, Error>)
    ensures r.Success? <==> id < |dataTypes|
    ensures r.Success? ==> r.value == dataTypes[id]
    ensures r.Failure? ==> r.error == InvalidDataTypeID(id)
  {
    if id < |dataTypes| then Success(dataTypes[id]) else Failure(InvalidDataTypeID(id))
  }

  /** The declared fields collected into a map: a name given twice keeps its last type. */
  function OwnFields(fields: seq<(string, TypeId)>): (m: map<string, TypeId>)
    ensures forall f :: f in m <==> exists i :: 0 <= i < |fields| && fields[i].0 == f
    decreases |fields|
  {
    if fields == [] then map[]
    else
      var last := fields[|fields| - 1];
      var m := OwnFields(fields[..|fields| - 1]);
      assert forall i :: 0 <= i < |fields| - 1 ==> fields[..|fields| - 1][i] == fields[i];
      m[last.0 := last.1]
  }

  /** A name declared twice takes the type of its last declaration. */
  lemma {:induction false} OwnFieldsLastWins(fields: seq<(string, TypeId)>, i: nat)
    requires i < |fields|
    requires forall j :: i < j < |fields| ==> fields[j].0 != fields[i].0
    ensures OwnFields(fields)[fields[i].0] == fields[i].1
    decreases |fields|
  {
    if i < |fields| - 1 {
      var init := fields[..|fields| - 1];
      assert init[i] == fields[i];
      OwnFieldsLastWins(init, i);
    }
  }

  /** No field name carries two different types in the two maps. */
  predicate Agree(a: map<string, TypeId>, b: map<string, TypeId>)
  {
    forall f :: f in a && f in b ==> a[f] == b[f]
  }

  predicate IsComposite(dataTypes: seq<DataType>, id: TypeId)
  {
    id < |dataTypes| && dataTypes[id].CompositeType?
  }

  /** The fields of a stored composite. */
  function FieldsOf(dataTypes: seq<DataType>, id: TypeId): map<string, TypeId>
    requires IsComposite(dataTypes, id)
  {
    dataTypes[id].def.fields
  }

  /** How the loop of compute_fields ends: with the merged map, or at the first base that is missing, primitive or clashes. */
  datatype FieldsOutcome =
    | Merged(fields: map<string, TypeId>)
    | BaseMissing(base: TypeId)
    | BasePrimitive(base: TypeId)
    | Clash(seen: map<string, TypeId>, parent: map<string, TypeId>)

  /** The bases taken in order, each one's fields inserted into the map computed so far. */
  function FieldsFrom(dataTypes: seq<DataType>, computed: map<string, TypeId>, bases: seq<TypeId>): FieldsOutcome
    decreases |bases|
  {
    if bases == [] then Merged(computed)
    else if bases[0] >= |dataTypes| then BaseMissing(bases[0])
    else if dataTypes[bases[0]].StringType? then BasePrimitive(bases[0])
    else if !Agree(computed, FieldsOf(dataTypes, bases[0])) then Clash(computed, FieldsOf(dataTypes, bases[0]))
    else FieldsFrom(dataTypes, computed + FieldsOf(dataTypes, bases[0]), bases[1..])
  }

  /** Every base is a stored composite, none disagrees with the declared fields, and no two disagree with each other. */
  predicate FieldsCompatible(dataTypes: seq<DataType>, computed: map<string, TypeId>, bases: seq<TypeId>)
  {
    && (forall i :: 0 <= i < |bases| ==> IsComposite(dataTypes, bases[i]))
    && (forall i :: 0 <= i < |bases| ==> Agree(computed, FieldsOf(dataTypes, bases[i])))
    && (forall i, j :: 0 <= i < j < |bases| ==> Agree(FieldsOf(dataTypes, bases[i]), FieldsOf(dataTypes, bases[j])))
  }

  lemma {:induction false} AgreeUnion(a: map<string, TypeId>, b: map<string, TypeId>, c: map<string, TypeId>)
    requires Agree(a, b)
    ensures Agree(a + b, c) <==> Agree(a, c) && Agree(b, c)
  {
  }

  /** compute_fields succeeds exactly when all bases are composites whose fields agree with the declared ones and with each other. */
  lemma {:induction false} FieldsMergeIff(dataTypes: seq<DataType>, computed: map<string, TypeId>, bases: seq<TypeId>)
    ensures FieldsFrom(dataTypes, computed, bases).Merged? <==> FieldsCompatible(dataTypes, computed, bases)
    decreases |bases|
  {
    if bases != [] && IsComposite(dataTypes, bases[0]) && Agree(computed, FieldsOf(dataTypes, bases[0])) {
      var first := FieldsOf(dataTypes, bases[0]);
      var rest := bases[1..];
      FieldsMergeIff(dataTypes, computed + first, rest);
      assert forall i :: 0 <= i < |rest| ==> rest[i] == bases[i + 1];
      forall j | 0 <= j < |rest| && IsComposite(dataTypes, rest[j])
        ensures Agree(computed + first, FieldsOf(dataTypes, rest[j])) <==>
          Agree(computed, FieldsOf(dataTypes, rest[j])) && Agree(first, FieldsOf(dataTypes, rest[j]))
      {
        AgreeUnion(computed, first, FieldsOf(dataTypes, rest[j]));
      }
      if FieldsCompatible(dataTypes, computed, bases) {
        assert FieldsCompatible(dataTypes, computed + first, rest) by {
          forall j | 0 <= j < |rest|
            ensures Agree(first, FieldsOf(dataTypes, rest[j]))
          {
            assert bases[0] == bases[0] && rest[j] == bases[j + 1];
          }
        }
      }
      if FieldsCompatible(dataTypes, computed + first, rest) {
        forall i, j | 0 <= i < j < |bases|
          ensures Agree(FieldsOf(dataTypes, bases[i]), FieldsOf(dataTypes, bases[j]))
        {
          if i > 0 {
            assert bases[i] == rest[i - 1] && bases[j] == rest[j - 1];
          } else {
            assert bases[j] == rest[j - 1];
          }
        }
        forall i | 0 <= i < |bases|
          ensures Agree(computed, FieldsOf(dataTypes, bases[i]))
        {
          if i > 0 {
            assert bases[i] == rest[i - 1];
          }
        }
      }
    }
  }

  /** The merged map holds the declared fields and every base's fields with their types, and nothing else. */
  lemma {:induction false} MergedFields(dataTypes: seq<DataType>, computed: map<string, TypeId>, bases: seq<TypeId>)
    requires FieldsFrom(dataTypes, computed, bases).Merged?
    ensures var m := FieldsFrom(dataTypes, computed, bases).fields;
      && (forall i :: 0 <= i < |bases| ==> IsComposite(dataTypes, bases[i]))
      && (forall f :: f in computed ==> f in m && m[f] == computed[f])
      && (forall i, f :: 0 <= i < |bases| && f in FieldsOf(dataTypes, bases[i]) ==> f in m && m[f] == FieldsOf(dataTypes, bases[i])[f])
      && (forall f :: f in m ==> f in computed || exists i :: 0 <= i < |bases| && f in FieldsOf(dataTypes, bases[i]))
    decreases |bases|
  {
    if bases != [] {
      var first := FieldsOf(dataTypes, bases[0]);
      var rest := bases[1..];
      MergedFields(dataTypes, computed + first, rest);
      var m := FieldsFrom(dataTypes, computed, bases).fields;
      assert forall i :: 0 <= i < |rest| ==> rest[i] == bases[i + 1];
      forall i, f | 0 <= i < |bases| && f in FieldsOf(dataTypes, bases[i])
        ensures f in m && m[f] == FieldsOf(dataTypes, bases[i])[f]
      {
        if i > 0 {
          assert bases[i] == rest[i - 1];
        }
      }
      forall f | f in m
        ensures f in computed || exists i :: 0 <= i < |bases| && f in FieldsOf(dataTypes, bases[i])
      {
        if f !in computed && f !in first {
          var k :| 0 <= k < |rest| && f in FieldsOf(dataTypes, rest[k]);
          assert rest[k] == bases[k + 1];
        }
      }
    }
  }

  /** The error compute_fields reports for a field typed `a` so far and `b` by a base: the two type names, looked up in that order. */
  function ConflictError(dataTypes: seq<DataType>, name: string, a: TypeId, b: TypeId): Error
  {
    if a >= |dataTypes| then InvalidDataTypeID(a)
    else if b >= |dataTypes| then InvalidDataTypeID(b)
    else ConflictingFieldDefinitions(name, GetName(dataTypes[a]), GetName(dataTypes[b]))
  }

  /** The inner loop of compute_fields: a base's fields inserted one by one, stopping at the first that changes a type. */
  method AbsorbFields(dataTypes: seq<DataType>, name: string, computed: map<string, TypeId>, parent: map<string, TypeId>)
    returns (r: Result<map<string, TypeId>, Error>)
    ensures Agree(computed, parent) ==> r == Success(computed + parent)
    ensures !Agree(computed, parent) ==>
      exists f :: f in computed && f in parent && computed[f] != parent[f] && r == Failure(ConflictError(dataTypes, name, computed[f], parent[f]))
  {
    var result := computed;
    var todo := parent.Keys;
    while todo != {}
      invariant todo <= parent.Keys
      invariant result == computed + Restrict(parent, parent.Keys - todo)
      invariant Agree(computed, Restrict(parent, parent.Keys - todo))
      decreases |todo|
    {
      var f := Pick(todo);
      RestrictStep(computed, parent, parent.Keys - todo, f);
      if f in result && result[f] != parent[f] {
        r := Failure(ConflictError(dataTypes, name, result[f], parent[f]));
        assert f in computed && f in parent && computed[f] != parent[f];
        return;
      }
      result := result[f := parent[f]];
      assert parent.Keys - (todo - {f}) == (parent.Keys - todo) + {f};
      todo := todo - {f};
    }
    assert Restrict(parent, parent.Keys - todo) == parent;
    return Success(result);
  }

  /** The part of a map on the given keys. */
  function Restrict(m: map<string, TypeId>, keys: set<string>): map<string, TypeId>
  {
    map k | k in keys && k in m :: m[k]
  }

  /** Inserting one more field of the base into the map computed so far. */
  lemma {:induction false} RestrictStep(computed: map<string, TypeId>, parent: map<string, TypeId>, done: set<string>, f: string)
    requires f in parent && f !in done && Agree(computed, Restrict(parent, done))
    ensures f in computed + Restrict(parent, done) ==> (computed + Restrict(parent, done))[f] == computed[f]
    ensures (computed + Restrict(parent, done))[f := parent[f]] == computed + Restrict(parent, done + {f})
    ensures f in computed ==> computed[f] == parent[f] ==> Agree(computed, Restrict(parent, done + {f}))
    ensures f !in computed ==> Agree(computed, Restrict(parent, done + {f}))
  {
  }

  /** compute_fields: the declared fields, then each base's fields in the order the set hands the bases out. */
  method ComputeFields(dataTypes: seq<DataType>, name: string, fields: seq<(string, TypeId)>, bases: seq<TypeId>)
    returns (r: Result<map<string, TypeId>, Error>)
    ensures match FieldsFrom(dataTypes, OwnFields(fields), bases)
      case Merged(m) => r == Success(m)
      case BaseMissing(b) => r == Failure(InvalidDataTypeID(b))
      case BasePrimitive(b) => r == Failure(CannotExtendPrimitiveType(name, "String"))
      case Clash(seen, parent) =>
        exists f :: f in seen && f in parent && seen[f] != parent[f] && r == Failure(ConflictError(dataTypes, name, seen[f], parent[f]))
  {
    var computed := OwnFields(fields);
    for i := 0 to |bases|
      invariant FieldsFrom(dataTypes, OwnFields(fields), bases) == FieldsFrom(dataTypes, computed, bases[i..])
    {
      var rest := bases[i..];
      assert rest[0] == bases[i] && rest[1..] == bases[i + 1..];
      var base := TypeAt(dataTypes, bases[i]);
      if base.Failure? {
        return Failure(base.error);
      }
      match base.value
      case CompositeType(ctd) =>
        var absorbed := AbsorbFields(dataTypes, name, computed, ctd.fields);
        if absorbed.Failure? {
          return Failure(absorbed.error);
        }
        computed := absorbed.value;
      case StringType =>
        return Failure(CannotExtendPrimitiveType(name, GetName(base.value)));
    }
    assert bases[|bases|..] == [];
    return Success(computed);
  }

  /** The loop of compute_parents over the original set: each base's own ancestors are added, one level deep. */
  function ParentsFrom(dataTypes: seq<DataType>, name: string, acc: set<TypeId>, ancestors: seq<TypeId>): Result<set<TypeId>, Error>
    decreases |ancestors|
  {
    if ancestors == [] then Success(acc)
    else if ancestors[0] >= |dataTypes| then Failure(InvalidDataTypeID(ancestors[0]))
    else if dataTypes[ancestors[0]].StringType? then Failure(CannotExtendPrimitiveType(name, "String"))
    else ParentsFrom(dataTypes, name, acc + dataTypes[ancestors[0]].def.ancestors, ancestors[1..])
  }

  /** compute_parents succeeds exactly when every base is a stored composite, and then yields the bases and whatever each of them extends. */
  lemma {:induction false} ParentsMeaning(dataTypes: seq<DataType>, name: string, acc: set<TypeId>, ancestors: seq<TypeId>)
    ensures ParentsFrom(dataTypes, name, acc, ancestors).Success? <==> forall i :: 0 <= i < |ancestors| ==> IsComposite(dataTypes, ancestors[i])
    ensures ParentsFrom(dataTypes, name, acc, ancestors).Success? ==>
      forall t :: t in ParentsFrom(dataTypes, name, acc, ancestors).value <==>
        t in acc || exists i :: 0 <= i < |ancestors| && t in dataTypes[ancestors[i]].def.ancestors
    decreases |ancestors|
  {
    if ancestors != [] && IsComposite(dataTypes, ancestors[0]) {
      var rest := ancestors[1..];
      ParentsMeaning(dataTypes, name, acc + dataTypes[ancestors[0]].def.ancestors, rest);
      assert forall i :: 0 <= i < |rest| ==> rest[i] == ancestors[i + 1];
      if ParentsFrom(dataTypes, name, acc, ancestors).Success? {
        var s := ParentsFrom(dataTypes, name, acc, ancestors).value;
        forall t | t in s
          ensures t in acc || exists i :: 0 <= i < |ancestors| && t in dataTypes[ancestors[i]].def.ancestors
        {
          if t !in acc && t !in dataTypes[ancestors[0]].def.ancestors {
            var k :| 0 <= k < |rest| && t in dataTypes[rest[k]].def.ancestors;
            assert rest[k] == ancestors[k + 1];
          }
        }
        forall t | exists i :: 0 <= i < |ancestors| && t in dataTypes[ancestors[i]].def.ancestors
          ensures t in s
        {
          var k :| 0 <= k < |ancestors| && t in dataTypes[ancestors[k]].def.ancestors;
          if k > 0 {
            assert ancestors[k] == rest[k - 1];
          }
        }
      }
    }
  }

  /** Every composite's ancestor set already holds its ancestors' ancestors. */
  predicate AncestryClosed(dataTypes: seq<DataType>)
  {
    forall id, a :: 0 <= id < |dataTypes| && dataTypes[id].CompositeType? && a in dataTypes[id].def.ancestors && IsComposite(dataTypes, a) ==>
      dataTypes[a].def.ancestors <= dataTypes[id].def.ancestors
  }

  /** One level is enough: when the stored composites are closed, so is the computed ancestor set of a new one. */
  lemma {:induction false} ParentsClosed(dataTypes: seq<DataType>, name: string, bases: seq<TypeId>)
    requires AncestryClosed(dataTypes)
    requires ParentsFrom(dataTypes, name, (set b | b in bases), bases).Success?
    ensures var s := ParentsFrom(dataTypes, name, (set b | b in bases), bases).value;
      forall a :: a in s && IsComposite(dataTypes, a) ==> dataTypes[a].def.ancestors <= s
  {
    var s := ParentsFrom(dataTypes, name, (set b | b in bases), bases).value;
    ParentsMeaning(dataTypes, name, (set b | b in bases), bases);
    forall a, t | a in s && IsComposite(dataTypes, a) && t in dataTypes[a].def.ancestors
      ensures t in s
    {
      if a in bases {
        var i :| 0 <= i < |bases| && bases[i] == a;
        assert t in dataTypes[bases[i]].def.ancestors;
      } else {
        var i :| 0 <= i < |bases| && a in dataTypes[bases[i]].def.ancestors;
        assert IsComposite(dataTypes, bases[i]);
        assert dataTypes[a].def.ancestors <= dataTypes[bases[i]].def.ancestors;
      }
    }
  }

  /** compute_parents: the base set extended by each base's own ancestors. */
  method ComputeParents(dataTypes: seq<DataType>, name: string, bases: seq<TypeId>) returns (r: Result<set<TypeId>, Error>)
    ensures r == ParentsFrom(dataTypes, name, (set b | b in bases), bases)
  {
    var parents := set b | b in bases;
    for i := 0 to |bases|
      invariant ParentsFrom(dataTypes, name, (set b | b in bases), bases) == ParentsFrom(dataTypes, name, parents, bases[i..])
    {
      var rest := bases[i..];
      assert rest[0] == bases[i] && rest[1..] == bases[i + 1..];
      var ancestor := TypeAt(dataTypes, bases[i]);
      if ancestor.Failure? {
        return Failure(ancestor.error);
      }
      match ancestor.value
      case CompositeType(ctd) =>
        parents := parents + ctd.ancestors;
      case StringType =>
        return Failure(CannotExtendPrimitiveType(name, GetName(ancestor.value)));
    }
    assert bases[|bases|..] == [];
    return Success(parents);
  }

  /** new_composite: the fields are computed first, then the ancestors; the first failure is returned. */
  method NewComposite(dataTypes: seq<DataType>, name: string, fields: seq<(string, TypeId)>, bases: seq<TypeId>)
    returns (r: Result<CompositeTypeDef, Error>)
    ensures r.Success? <==>
      FieldsFrom(dataTypes, OwnFields(fields), bases).Merged? && ParentsFrom(dataTypes, name, (set b | b in bases), bases).Success?
    ensures r.Success? ==>
      r.value == CompositeTypeDef(name, FieldsFrom(dataTypes, OwnFields(fields), bases).fields,
        ParentsFrom(dataTypes, name, (set b | b in bases), bases).value)
  {
    var computedFields := ComputeFields(dataTypes, name, fields, bases);
    if computedFields.Failure? {
      return Failure(computedFields.error);
    }
    var parents := ComputeParents(dataTypes, name, bases);
    if parents.Failure? {
      return Failure(parents.error);
    }
    return Success(CompositeTypeDef(name, computedFields.value, parents.value));
  }
}
