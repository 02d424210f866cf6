/**
 * The comparison chain of the runtime library (src/runtime/egg_lib.py):
 * `a op b op c …` holds when every adjacent triple holds. The objects'
 * `equals` and `compare` are the runtime types' own methods; the model
 * takes them as parameters.
 */
module EggLib {
  import opened Wrappers

  datatype ComparisonType = Equal | Unequal | Less | Lte | Greater | Gte

  /** types.ComparisonResult. */
  datatype ComparisonResult = Same | Below | Above

  /** One argument of do_comparisons: a runtime object or a comparison operator. */
  datatype Arg<T> = Object(value: T) | Op(op: ComparisonType)

  /** Why do_comparisons fails: Python's `assert` on the arguments. */
  datatype ChainError = AssertionError

  /** One triple `a op b`; an argument other than an operator in the operator place is no test. */
  function Holds<T>(a: T, op: Arg<T>, b: T, equals: (T, T) -> bool, compare: (T, T) -> ComparisonResult): bool
  {
    if !op.Op? then true
    else match op.op
      case Equal => equals(a, b)
      case Unequal => !equals(a, b)
      case Less => compare(a, b) == Below
      case Lte => compare(a, b) != Above
      case Greater => compare(a, b) == Above
      case Gte => compare(a, b) != Below
  }

  /** The loop of do_comparisons from index `i` on: the triples at `i`, `i + 2`, … in order. */
  function ChainFrom<T>(args: seq<Arg<T>>, i: nat, equals: (T, T) -> bool, compare: (T, T) -> ComparisonResult): Result<bool, ChainError>
    decreases |args| - i
  {
    if i + 2 >= |args| then Success(true)
    else if !args[i].Object? || !args[i + 2].Object? then Failure(AssertionError)
    else if !Holds(args[i].value, args[i + 1], args[i + 2].value, equals, compare) then Success(false)
    else ChainFrom(args, i + 2, equals, compare)
  }

  /** do_comparisons as a value: an odd number of at least three arguments, then the loop. */
  function Comparisons<T>(args: seq<Arg<T>>, equals: (T, T) -> bool, compare: (T, T) -> ComparisonResult): Result<bool, ChainError>
  {
    if |args| < 3 || |args| % 2 != 1 then Failure(AssertionError) else ChainFrom(args, 0, equals, compare)
  }

  /** do_comparisons: checks the triples left to right and returns False at the first that fails. */
  method DoComparisons<T>(args: seq<Arg<T>>, equals: (T, T) -> bool, compare: (T, T) -> ComparisonResult)
    returns (r: Result<bool, ChainError>)
    ensures r == Comparisons(args, equals, compare)
  {
    if |args| < 3 || |args| % 2 != 1 {
      return Failure(AssertionError);
    }
    var i := 0;
    while i < |args| - 2
      invariant 0 <= i && i % 2 == 0 && i <= |args|
      invariant ChainFrom(args, i, equals, compare) == ChainFrom(args, 0, equals, compare)
    {
      var a, op, b := args[i], args[i + 1], args[i + 2];
      if !a.Object? || !b.Object? {
        return Failure(AssertionError);
      }
      if !Holds(a.value, op, b.value, equals, compare) {
        return Success(false);
      }
      i := i + 2;
    }
    r := Success(true);
  }

  /** The triple at `j` passes: both operands are objects and the comparison holds. */
  predicate Passes<T>(args: seq<Arg<T>>, j: nat, equals: (T, T) -> bool, compare: (T, T) -> ComparisonResult)
    requires j + 2 < |args|
  {
    args[j].Object? && args[j + 2].Object? && Holds(args[j].value, args[j + 1], args[j + 2].value, equals, compare)
  }

  /** Every triple at an even index from `i` on passes. */
  ghost predicate AllPassFrom<T>(args: seq<Arg<T>>, i: nat, equals: (T, T) -> bool, compare: (T, T) -> ComparisonResult)
  {
    forall k :: i <= k && k + 2 < |args| && k % 2 == 0 ==> Passes(args, k, equals, compare)
  }

  /** From an even index with a triple left, the loop answers True exactly when every triple from there on passes. */
  lemma {:induction false} ChainFromTrue<T>(args: seq<Arg<T>>, i: nat, equals: (T, T) -> bool, compare: (T, T) -> ComparisonResult)
    requires i % 2 == 0 && i + 2 < |args| && |args| % 2 == 1
    ensures ChainFrom(args, i, equals, compare) == Success(true) <==> AllPassFrom(args, i, equals, compare)
    decreases |args| - i
  {
    if i + 4 < |args| {
      ChainFromTrue(args, i + 2, equals, compare);
    }
    assert AllPassFrom(args, i, equals, compare) <==>
      Passes(args, i, equals, compare) && AllPassFrom(args, i + 2, equals, compare);
  }

  /** do_comparisons answers True exactly when every adjacent triple has objects around an operator that holds. */
  lemma {:induction false} ComparisonsTrue<T>(args: seq<Arg<T>>, equals: (T, T) -> bool, compare: (T, T) -> ComparisonResult)
    requires |args| >= 3 && |args| % 2 == 1
    ensures Comparisons(args, equals, compare) == Success(true) <==> AllPassFrom(args, 0, equals, compare)
  {
    ChainFromTrue(args, 0, equals, compare);
  }

  /** The wrong number of arguments always fails the assertion. */
  lemma {:induction false} ComparisonsArity<T>(args: seq<Arg<T>>, equals: (T, T) -> bool, compare: (T, T) -> ComparisonResult)
    ensures (|args| < 3 || |args| % 2 == 0) ==> Comparisons(args, equals, compare) == Failure(AssertionError)
  {
  }

  /** The triple at `k` is the first from `i` on that fails, its operands being objects. */
  ghost predicate FirstFails<T>(args: seq<Arg<T>>, i: nat, k: nat, equals: (T, T) -> bool, compare: (T, T) -> ComparisonResult)
  {
    && i <= k && k + 2 < |args| && k % 2 == 0
    && (forall j :: i <= j < k && j % 2 == 0 ==> Passes(args, j, equals, compare))
    && args[k].Object? && args[k + 2].Object?
    && !Holds(args[k].value, args[k + 1], args[k + 2].value, equals, compare)
  }

  /** A False answer comes from the first failing triple; everything before it passes. */
  lemma {:induction false} ChainFromFalse<T>(args: seq<Arg<T>>, i: nat, equals: (T, T) -> bool, compare: (T, T) -> ComparisonResult)
    requires i % 2 == 0
    requires ChainFrom(args, i, equals, compare) == Success(false)
    ensures exists k :: FirstFails(args, i, k, equals, compare)
    decreases |args| - i
  {
    if !Holds(args[i].value, args[i + 1], args[i + 2].value, equals, compare) {
      assert FirstFails(args, i, i, equals, compare);
    } else {
      ChainFromFalse(args, i + 2, equals, compare);
      var k :| FirstFails(args, i + 2, k, equals, compare);
      assert Passes(args, i, equals, compare);
      assert FirstFails(args, i, k, equals, compare);
    }
  }

  /** LTE is "not greater" and GTE is "not less", so equal objects satisfy both. */
  lemma {:induction false} LteGte<T>(a: T, b: T, equals: (T, T) -> bool, compare: (T, T) -> ComparisonResult)
    ensures Holds(a, Op(Lte), b, equals, compare) <==> compare(a, b) == Same || compare(a, b) == Below
    ensures Holds(a, Op(Gte), b, equals, compare) <==> compare(a, b) == Same || compare(a, b) == Above
  {
  }

  /** Integer comparison, as types.Integer does it. */
  function IntCompare(a: int, b: int): ComparisonResult
  {
    if a == b then Same else if a < b then Below else Above
  }

  function Ints(xs: seq<int>, ops: seq<ComparisonType>): seq<Arg<int>>
    requires |ops| + 1 == |xs|
    decreases |ops|
  {
    if ops == [] then [Object(xs[0])] else [Object(xs[0]), Op(ops[0])] + Ints(xs[1..], ops[1..])
  }

  /** `!=` chains test adjacent pairs only: 1 != 2 != 3 holds, 1 != 2 != 2 and 2 != 2 != 1 do not. */
  lemma {:induction false} UnequalChains()
    ensures Comparisons(Ints([1, 2, 3], [Unequal, Unequal]), (a: int, b: int) => a == b, IntCompare) == Success(true)
    ensures Comparisons(Ints([1, 2, 2], [Unequal, Unequal]), (a: int, b: int) => a == b, IntCompare) == Success(false)
    ensures Comparisons(Ints([2, 2, 1], [Unequal, Unequal]), (a: int, b: int) => a == b, IntCompare) == Success(false)
  {
    assert Ints([1, 2, 3], [Unequal, Unequal]) == [Object(1), Op(Unequal), Object(2), Op(Unequal), Object(3)];
    assert Ints([1, 2, 2], [Unequal, Unequal]) == [Object(1), Op(Unequal), Object(2), Op(Unequal), Object(2)];
    assert Ints([2, 2, 1], [Unequal, Unequal]) == [Object(2), Op(Unequal), Object(2), Op(Unequal), Object(1)];
  }
}
