/**
 * The arena syntax tree of the Rust front end (crates/egg-ast/src/ast.rs):
 * nodes live in one vector, children are indices into it, and node 0 is the
 * root. Trees are combined by appending one arena to another and shifting
 * the appended child indices.
 */
module EggAst {
  import opened Wrappers
  import opened Grammar

  /** annotations.rs: what later passes attach to a node. */
  datatype Annotations = Annotations(memId: Option<nat>, discard: bool, typeId: Option<nat>)

  /** Annotations::new. */
  const NEW_ANNOTATIONS := Annotations(None, true, None)

  datatype AstNode = AstNode(symbol: Symbol, children: seq<nat>, token: Option<nat>, annotations: Annotations)

  /** The tree errors of crates/egg-ast/src/errors.rs that these operations raise. */
  datatype Error = ParserTreeHasNoRootNode | ParserTreeNodeOutOfBounds | ParserExpectedPlaceholder | ParserReceivedPlaceholder

  /** A one-node tree whose root has the given symbol, as the parser builds them. */
  function Leaf(symbol: Symbol): seq<AstNode>
  {
    [AstNode(symbol, [], None, NEW_ANNOTATIONS)]
  }

  /** Every child index lies after its parent and inside the arena, so the tree is acyclic. */
  ghost predicate Ordered(nodes: seq<AstNode>)
  {
    forall i, k :: 0 <= i < |nodes| && 0 <= k < |nodes[i].children| ==> i < nodes[i].children[k] < |nodes|
  }

  /** No index is listed as a child twice, in one node or in two. */
  ghost predicate UniqueParents(nodes: seq<AstNode>)
  {
    forall i, k, j, l ::
      (0 <= i < |nodes| && 0 <= k < |nodes[i].children| && 0 <= j < |nodes| && 0 <= l < |nodes[j].children|
       && nodes[i].children[k] == nodes[j].children[l]) ==> i == j && k == l
  }

  /** A non-empty arena that is a tree rooted at node 0. */
  ghost predicate IsTree(nodes: seq<AstNode>)
  {
    |nodes| > 0 && Ordered(nodes) && UniqueParents(nodes)
  }

  /** Every index moved up by `offset`. */
  function Shift(ids: seq<nat>, offset: nat): seq<nat>
  {
    seq(|ids|, i requires 0 <= i < |ids| => ids[i] + offset)
  }

  /** offset_ids on a value: every child index of every node moved up by `offset`. */
  function Offset(nodes: seq<AstNode>, offset: nat): seq<AstNode>
  {
    seq(|nodes|, i requires 0 <= i < |nodes| => nodes[i].(children := Shift(nodes[i].children, offset)))
  }

  /** The root with `ids` appended to its children. */
  function Adopt(nodes: seq<AstNode>, ids: seq<nat>): seq<AstNode>
    requires |nodes| > 0
  {
    nodes[0 := nodes[0].(children := nodes[0].children + ids)]
  }

  /** hang_child on values: the child's nodes follow ours, and its root becomes the last child of our root. */
  function Hang(nodes: seq<AstNode>, child: seq<AstNode>): (r: Result<seq<AstNode>, Error>)
    ensures r.Failure? <==> |child| == 0 || child[0].symbol == Placeholder || |nodes| == 0
    ensures r.Failure? && |child| > 0 && child[0].symbol == Placeholder ==> r.error == ParserReceivedPlaceholder
    ensures r.Success? ==> |r.value| == |nodes| + |child|
  {
    if |child| == 0 then Failure(ParserTreeHasNoRootNode)
    else if child[0].symbol == Placeholder then Failure(ParserReceivedPlaceholder)
    else if |nodes| == 0 then Failure(ParserTreeHasNoRootNode)
    else Success(Adopt(nodes, [|nodes|]) + Offset(child, |nodes|))
  }

  /**
   * Whether hang_from_placeholder gets past its checks to `len() - 1`: the
   * subtraction underflows, and the Rust code panics, when our tree is empty.
   */
  predicate SpliceDefined(nodes: seq<AstNode>, child: seq<AstNode>)
  {
    |nodes| > 0 || |child| == 0 || child[0].symbol != Placeholder
  }

  /** hang_from_placeholder on values: the child's root is dropped and our root adopts its children. */
  function Splice(nodes: seq<AstNode>, child: seq<AstNode>): (r: Result<seq<AstNode>, Error>)
    requires SpliceDefined(nodes, child)
    ensures r.Failure? <==> |child| == 0 || child[0].symbol != Placeholder
    ensures r.Failure? && |child| > 0 ==> r.error == ParserExpectedPlaceholder
    ensures r.Success? ==> |r.value| == |nodes| + |child| - 1
  {
    if |child| == 0 then Failure(ParserTreeHasNoRootNode)
    else if child[0].symbol != Placeholder then Failure(ParserExpectedPlaceholder)
    else Success(Adopt(nodes, Shift(child[0].children, |nodes| - 1)) + Offset(child[1..], |nodes| - 1))
  }

  /** add_child on values: one node is pushed and becomes the last child of the root. */
  function Attach(nodes: seq<AstNode>, node: AstNode): (r: Result<seq<AstNode>, Error>)
    ensures r.Failure? <==> |nodes| == 0
    ensures r.Success? ==> |r.value| == |nodes| + 1 && r.value[|nodes|] == node
  {
    if |nodes| == 0 then Failure(ParserTreeHasNoRootNode)
    else Success(Adopt(nodes, [|nodes|]) + [node])
  }

  class Ast {
    var nodes: seq<AstNode>

    constructor(nodes: seq<AstNode>)
      ensures this.nodes == nodes
    {
      this.nodes := nodes;
    }

    /** get_root: node 0, or an error for an empty tree. */
    function GetRoot(): (r: Result<AstNode, Error>)
      reads this
      ensures r.Success? <==> |nodes| > 0
      ensures r.Success? ==> r.value == nodes[0]
      ensures r.Failure? ==> r.error == ParserTreeHasNoRootNode
    {
      if |nodes| > 0 then Success(nodes[0]) else Failure(ParserTreeHasNoRootNode)
    }

    /** get_node: node `i`, or an error exactly when `i` is past the end. */
    function GetNode(i: nat): (r: Result<AstNode, Error>)
      reads this
      ensures r.Success? <==> i < |nodes|
      ensures r.Success? ==> r.value == nodes[i]
      ensures r.Failure? ==> r.error == ParserTreeNodeOutOfBounds
    {
      if i < |nodes| then Success(nodes[i]) else Failure(ParserTreeNodeOutOfBounds)
    }

    /** offset_ids: every child index of every node moves up by `offset`. */
    method OffsetIds(offset: nat)
      modifies this
      ensures nodes == Offset(old(nodes), offset)
    {
      var i := 0;
      while i < |nodes|
        invariant 0 <= i <= |nodes| == |old(nodes)|
        invariant nodes[..i] == Offset(old(nodes), offset)[..i]
        invariant nodes[i..] == old(nodes)[i..]
      {
        assert nodes[i] == old(nodes)[i];
        nodes := nodes[i := nodes[i].(children := Shift(nodes[i].children, offset))];
        i := i + 1;
      }
      assert nodes == nodes[..i];
    }

    /**
     * hang_child: rejects a child whose root is a placeholder, shifts the
     * child's indices past our nodes, makes its root our root's last child
     * and moves its nodes over, which leaves the child tree empty.
     */
    method HangChild(childTree: Ast) returns (r: Result<(), Error>)
      requires childTree != this
      modifies this, childTree
      ensures r.Success? <==> Hang(old(nodes), old(childTree.nodes)).Success?
      ensures r.Success? ==> nodes == Hang(old(nodes), old(childTree.nodes)).value && childTree.nodes == []
      ensures r.Failure? ==> r.error == Hang(old(nodes), old(childTree.nodes)).error && nodes == old(nodes)
    {
      var root := childTree.GetRoot();
      if root.Failure? {
        return Failure(root.error);
      }
      if root.value.symbol == Placeholder {
        return Failure(ParserReceivedPlaceholder);
      }
      var currentSize := |nodes|;
      childTree.OffsetIds(currentSize);
      if |nodes| == 0 {
        return Failure(ParserTreeHasNoRootNode);
      }
      nodes := nodes[0 := nodes[0].(children := nodes[0].children + [currentSize])];
      nodes := nodes + childTree.nodes;
      childTree.nodes := [];
      return Success(());
    }

    /**
     * hang_from_placeholder: requires a child whose root is a placeholder,
     * shifts the child's indices so that its nodes after the root follow
     * ours, drops its root and appends that root's children to ours.
     */
    method HangFromPlaceholder(childTree: Ast) returns (r: Result<(), Error>)
      requires childTree != this && SpliceDefined(nodes, childTree.nodes)
      modifies this, childTree
      ensures r.Success? <==> Splice(old(nodes), old(childTree.nodes)).Success?
      ensures r.Success? ==> nodes == Splice(old(nodes), old(childTree.nodes)).value && childTree.nodes == []
      ensures r.Failure? ==> r.error == Splice(old(nodes), old(childTree.nodes)).error && nodes == old(nodes)
    {
      var root := childTree.GetRoot();
      if root.Failure? {
        return Failure(root.error);
      }
      if root.value.symbol != Placeholder {
        return Failure(ParserExpectedPlaceholder);
      }
      childTree.OffsetIds(|nodes| - 1);
      var childRoot := childTree.nodes[0];
      childTree.nodes := childTree.nodes[1..];
      nodes := nodes + childTree.nodes;
      childTree.nodes := [];
      nodes := nodes[0 := nodes[0].(children := nodes[0].children + childRoot.children)];
      assert nodes == Splice(old(nodes), old(childTree.nodes)).value by {
        assert childRoot.children == Shift(old(childTree.nodes)[0].children, |old(nodes)| - 1);
        assert Offset(old(childTree.nodes), |old(nodes)| - 1)[1..] == Offset(old(childTree.nodes)[1..], |old(nodes)| - 1);
      }
      return Success(());
    }

    /** add_child: pushes one node and makes it the root's last child. */
    method AddChild(childNode: AstNode) returns (r: Result<(), Error>)
      modifies this
      ensures r.Success? <==> Attach(old(nodes), childNode).Success?
      ensures r.Success? ==> nodes == Attach(old(nodes), childNode).value
      ensures r.Failure? ==> r.error == ParserTreeHasNoRootNode && nodes == old(nodes)
    {
      var currentSize := |nodes|;
      if currentSize == 0 {
        return Failure(ParserTreeHasNoRootNode);
      }
      nodes := nodes[0 := nodes[0].(children := nodes[0].children + [currentSize])];
      nodes := nodes + [childNode];
      return Success(());
    }
  }

  /** hang_child keeps a tree a tree: the result's root lists the child's root, placed after our nodes. */
  lemma {:induction false} HangKeepsTree(nodes: seq<AstNode>, child: seq<AstNode>)
    requires IsTree(nodes) && IsTree(child) && child[0].symbol != Placeholder
    ensures Hang(nodes, child).Success?
    ensures var t := Hang(nodes, child).value;
      && IsTree(t)
      && t[0].symbol == nodes[0].symbol
      && t[0].children == nodes[0].children + [|nodes|]
      && t[|nodes|].symbol == child[0].symbol
  {
    var n := |nodes|;
    var t := Hang(nodes, child).value;
    assert Ordered(t) by {
      forall i, k | 0 <= i < |t| && 0 <= k < |t[i].children|
        ensures i < t[i].children[k] < |t|
      {
        if i >= n {
          assert t[i].children[k] == child[i - n].children[k] + n;
        } else if i > 0 || k < |nodes[0].children| {
          assert t[i].children[k] == nodes[i].children[k];
        }
      }
    }
    assert UniqueParents(t) by {
      forall i, k, j, l |
        0 <= i < |t| && 0 <= k < |t[i].children| && 0 <= j < |t| && 0 <= l < |t[j].children|
        && t[i].children[k] == t[j].children[l]
        ensures i == j && k == l
      {
        HangParentsCase(nodes, child, i, k, j, l);
      }
    }
  }

  /** The child index at (i, k) of the tree hang_child builds, read back from the two inputs. */
  lemma {:induction false} HangEntry(nodes: seq<AstNode>, child: seq<AstNode>, i: nat, k: nat)
    requires IsTree(nodes) && IsTree(child) && child[0].symbol != Placeholder
    requires i < |Hang(nodes, child).value| && k < |Hang(nodes, child).value[i].children|
    ensures var t := Hang(nodes, child).value; var n := |nodes|;
      && (i >= n ==> t[i].children[k] == child[i - n].children[k] + n && t[i].children[k] > n)
      && (i < n && (i > 0 || k < |nodes[0].children|) ==> t[i].children[k] == nodes[i].children[k] && t[i].children[k] < n)
      && (i == 0 && k == |nodes[0].children| ==> t[i].children[k] == n)
  {
  }

  lemma {:induction false} HangParentsCase(nodes: seq<AstNode>, child: seq<AstNode>, i: nat, k: nat, j: nat, l: nat)
    requires IsTree(nodes) && IsTree(child) && child[0].symbol != Placeholder
    requires var t := Hang(nodes, child).value;
      && i < |t| && k < |t[i].children| && j < |t| && l < |t[j].children|
      && t[i].children[k] == t[j].children[l]
    ensures i == j && k == l
  {
    HangEntry(nodes, child, i, k);
    HangEntry(nodes, child, j, l);
  }

  /** add_child of a leaf keeps a tree a tree, with the leaf as the root's last child. */
  lemma {:induction false} AttachKeepsTree(nodes: seq<AstNode>, node: AstNode)
    requires IsTree(nodes) && node.children == []
    ensures Attach(nodes, node).Success?
    ensures var t := Attach(nodes, node).value;
      && IsTree(t)
      && t[0].symbol == nodes[0].symbol
      && t[0].children == nodes[0].children + [|nodes|]
  {
    var n := |nodes|;
    var t := Attach(nodes, node).value;
    assert Ordered(t) by {
      forall i, k | 0 <= i < |t| && 0 <= k < |t[i].children|
        ensures i < t[i].children[k] < |t|
      {
        if i > 0 || k < |nodes[0].children| {
          assert t[i].children[k] == nodes[i].children[k];
        }
      }
    }
    assert UniqueParents(t) by {
      forall i, k, j, l |
        0 <= i < |t| && 0 <= k < |t[i].children| && 0 <= j < |t| && 0 <= l < |t[j].children|
        && t[i].children[k] == t[j].children[l]
        ensures i == j && k == l
      {
        if i > 0 || k < |nodes[0].children| {
          assert t[i].children[k] == nodes[i].children[k];
        }
        if j > 0 || l < |nodes[0].children| {
          assert t[j].children[l] == nodes[j].children[l];
        }
      }
    }
  }

  /** The child index at (i, k) of the tree hang_from_placeholder builds, read back from the two inputs. */
  lemma {:induction false} SpliceEntry(nodes: seq<AstNode>, child: seq<AstNode>, i: nat, k: nat)
    requires IsTree(nodes) && IsTree(child) && child[0].symbol == Placeholder
    requires i < |Splice(nodes, child).value| && k < |Splice(nodes, child).value[i].children|
    ensures var t := Splice(nodes, child).value; var n := |nodes|;
      && (i >= n ==> t[i].children[k] == child[i - n + 1].children[k] + n - 1 && t[i].children[k] > i)
      && (i < n && (i > 0 || k < |nodes[0].children|) ==> t[i].children[k] == nodes[i].children[k] && t[i].children[k] < n)
      && (i == 0 && k >= |nodes[0].children| ==> t[i].children[k] == child[0].children[k - |nodes[0].children|] + n - 1 && t[i].children[k] >= n)
  {
  }

  lemma {:induction false} SpliceParentsCase(nodes: seq<AstNode>, child: seq<AstNode>, i: nat, k: nat, j: nat, l: nat)
    requires IsTree(nodes) && IsTree(child) && child[0].symbol == Placeholder
    requires var t := Splice(nodes, child).value;
      && i < |t| && k < |t[i].children| && j < |t| && l < |t[j].children|
      && t[i].children[k] == t[j].children[l]
    ensures i == j && k == l
  {
    var n := |nodes|;
    var m := |nodes[0].children|;
    SpliceEntry(nodes, child, i, k);
    SpliceEntry(nodes, child, j, l);
    if i == 0 && k >= m && j == 0 && l >= m {
      assert child[0].children[k - m] == child[0].children[l - m];
    } else if i >= n && j >= n {
      assert child[i - n + 1].children[k] == child[j - n + 1].children[l];
    }
  }

  /** hang_from_placeholder keeps a tree a tree: our root keeps its children and adopts the placeholder's. */
  lemma {:induction false} SpliceKeepsTree(nodes: seq<AstNode>, child: seq<AstNode>)
    requires IsTree(nodes) && IsTree(child) && child[0].symbol == Placeholder
    ensures Splice(nodes, child).Success?
    ensures var t := Splice(nodes, child).value;
      && IsTree(t)
      && t[0].symbol == nodes[0].symbol
      && t[0].children == nodes[0].children + Shift(child[0].children, |nodes| - 1)
  {
    var t := Splice(nodes, child).value;
    assert Ordered(t) by {
      forall i, k | 0 <= i < |t| && 0 <= k < |t[i].children|
        ensures i < t[i].children[k] < |t|
      {
        SpliceEntry(nodes, child, i, k);
      }
    }
    assert UniqueParents(t) by {
      forall i, k, j, l |
        0 <= i < |t| && 0 <= k < |t[i].children| && 0 <= j < |t| && 0 <= l < |t[j].children|
        && t[i].children[k] == t[j].children[l]
        ensures i == j && k == l
      {
        SpliceParentsCase(nodes, child, i, k, j, l);
      }
    }
  }
}
