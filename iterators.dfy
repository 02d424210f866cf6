/**
 * The post-order traversal of an arena syntax tree
 * (crates/egg-ast/src/iterators.rs). The iterator computes the whole order
 * up front with an explicit stack of (node, index among its parent's
 * children) pairs, and then hands the ids out one at a time.
 */
module Iterators {
  import opened Wrappers
  import opened EggAst

  /** The post-order of the subtree at `id`: its children's subtrees left to right, then `id`. */
  function PostOrder(nodes: seq<AstNode>, id: nat): seq<nat>
    requires Ordered(nodes) && id < |nodes|
    decreases |nodes| - id, |nodes[id].children| + 1
  {
    PostChildren(nodes, id, 0) + [id]
  }

  /** The post-orders of the children of `id` from the `k`-th on, concatenated. */
  function PostChildren(nodes: seq<AstNode>, id: nat, k: nat): seq<nat>
    requires Ordered(nodes) && id < |nodes| && k <= |nodes[id].children|
    decreases |nodes| - id, |nodes[id].children| - k
  {
    if k == |nodes[id].children| then []
    else PostOrder(nodes, nodes[id].children[k]) + PostChildren(nodes, id, k + 1)
  }

  /** `to` is `from` or lies below one of its children. */
  ghost predicate Reachable(nodes: seq<AstNode>, from: nat, to: nat)
    requires Ordered(nodes) && from < |nodes|
    decreases |nodes| - from
  {
    from == to || exists k :: 0 <= k < |nodes[from].children| && Reachable(nodes, nodes[from].children[k], to)
  }

  /** Every node of the sequence comes after all of its children. */
  ghost predicate ChildrenFirst(nodes: seq<AstNode>, s: seq<nat>)
  {
    forall p, k :: 0 <= p < |s| && s[p] < |nodes| && 0 <= k < |nodes[s[p]].children| ==> nodes[s[p]].children[k] in s[..p]
  }

  predicate Distinct(s: seq<nat>)
  {
    forall i, j :: 0 <= i < j < |s| ==> s[i] != s[j]
  }

  /** A subtree holds its root and nodes after it. */
  lemma {:induction false} PostOrderAbove(nodes: seq<AstNode>, id: nat)
    requires Ordered(nodes) && id < |nodes|
    ensures forall e :: e in PostOrder(nodes, id) ==> id <= e < |nodes|
    decreases |nodes| - id, |nodes[id].children| + 1
  {
    PostChildrenAbove(nodes, id, 0);
  }

  lemma {:induction false} PostChildrenAbove(nodes: seq<AstNode>, id: nat, k: nat)
    requires Ordered(nodes) && id < |nodes| && k <= |nodes[id].children|
    ensures forall e :: e in PostChildren(nodes, id, k) ==> id < e < |nodes|
    decreases |nodes| - id, |nodes[id].children| - k
  {
    if k < |nodes[id].children| {
      PostOrderAbove(nodes, nodes[id].children[k]);
      PostChildrenAbove(nodes, id, k + 1);
    }
  }

  /** A node is in the children's part exactly when it is in the subtree of one of those children. */
  lemma {:induction false} InPostChildren(nodes: seq<AstNode>, id: nat, k: nat, e: nat)
    requires Ordered(nodes) && id < |nodes| && k <= |nodes[id].children|
    ensures e in PostChildren(nodes, id, k) <==>
      exists j :: k <= j < |nodes[id].children| && e in PostOrder(nodes, nodes[id].children[j])
    decreases |nodes[id].children| - k
  {
    var ch := nodes[id].children;
    if k < |ch| {
      var A, B := PostOrder(nodes, ch[k]), PostChildren(nodes, id, k + 1);
      assert PostChildren(nodes, id, k) == A + B;
      InPostChildren(nodes, id, k + 1, e);
      if e in A + B {
        if e in A {
          assert k <= k < |ch| && e in PostOrder(nodes, ch[k]);
        } else {
          assert e in B;
        }
      }
      if exists j :: k <= j < |ch| && e in PostOrder(nodes, ch[j]) {
        var j :| k <= j < |ch| && e in PostOrder(nodes, ch[j]);
        if j == k {
          assert e in A;
        } else {
          assert e in B;
        }
        assert e in A + B;
      }
    }
  }

  /** The post-order of a subtree lists exactly the nodes reachable from its root. */
  lemma {:induction false} PostOrderReachable(nodes: seq<AstNode>, id: nat, e: nat)
    requires Ordered(nodes) && id < |nodes|
    ensures e in PostOrder(nodes, id) <==> Reachable(nodes, id, e)
    decreases |nodes| - id
  {
    var ch := nodes[id].children;
    InPostChildren(nodes, id, 0, e);
    forall j | 0 <= j < |ch|
      ensures e in PostOrder(nodes, ch[j]) <==> Reachable(nodes, ch[j], e)
    {
      PostOrderReachable(nodes, ch[j], e);
    }
  }

  /** Two sequences that each list children first still do when concatenated. */
  lemma {:induction false} ChildrenFirstConcat(nodes: seq<AstNode>, s: seq<nat>, t: seq<nat>)
    requires ChildrenFirst(nodes, s) && ChildrenFirst(nodes, t)
    ensures ChildrenFirst(nodes, s + t)
  {
    var u := s + t;
    forall p, k | 0 <= p < |u| && u[p] < |nodes| && 0 <= k < |nodes[u[p]].children|
      ensures nodes[u[p]].children[k] in u[..p]
    {
      var c := nodes[u[p]].children[k];
      if p < |s| {
        assert u[p] == s[p] && s[..p] == u[..p];
      } else {
        assert u[p] == t[p - |s|];
        assert c in t[..p - |s|];
        assert u[..p] == s + t[..p - |s|];
      }
    }
  }

  /** Each child's subtree is part of the children's part from its index down. */
  lemma {:induction false} ChildInPostChildren(nodes: seq<AstNode>, id: nat, k: nat, j: nat)
    requires Ordered(nodes) && id < |nodes| && k <= j < |nodes[id].children|
    ensures nodes[id].children[j] in PostChildren(nodes, id, k)
    decreases j - k
  {
    if k < j {
      ChildInPostChildren(nodes, id, k + 1, j);
    } else {
      var p := PostOrder(nodes, nodes[id].children[k]);
      assert p[|p| - 1] == nodes[id].children[k];
    }
  }

  /** Every node of a subtree's post-order comes after all of its children. */
  lemma {:induction false} PostOrderChildrenFirst(nodes: seq<AstNode>, id: nat)
    requires Ordered(nodes) && id < |nodes|
    ensures ChildrenFirst(nodes, PostOrder(nodes, id))
    ensures PostOrder(nodes, id)[|PostOrder(nodes, id)| - 1] == id
    decreases |nodes| - id, |nodes[id].children| + 1
  {
    var ch := nodes[id].children;
    var pc := PostChildren(nodes, id, 0);
    PostChildrenChildrenFirst(nodes, id, 0);
    forall k | 0 <= k < |ch|
      ensures ch[k] in pc
    {
      ChildInPostChildren(nodes, id, 0, k);
    }
    ChildrenFirstTail(nodes, pc, id);
  }

  /** Appending a node whose children are all already listed keeps the children-first order. */
  lemma {:induction false} ChildrenFirstTail(nodes: seq<AstNode>, s: seq<nat>, id: nat)
    requires ChildrenFirst(nodes, s) && id < |nodes|
    requires forall k :: 0 <= k < |nodes[id].children| ==> nodes[id].children[k] in s
    ensures ChildrenFirst(nodes, s + [id])
  {
    var u := s + [id];
    forall p, k | 0 <= p < |u| && u[p] < |nodes| && 0 <= k < |nodes[u[p]].children|
      ensures nodes[u[p]].children[k] in u[..p]
    {
      if p < |s| {
        assert u[p] == s[p] && s[..p] == u[..p];
      } else {
        assert u[..p] == s;
      }
    }
  }

  lemma {:induction false} PostChildrenChildrenFirst(nodes: seq<AstNode>, id: nat, k: nat)
    requires Ordered(nodes) && id < |nodes| && k <= |nodes[id].children|
    ensures ChildrenFirst(nodes, PostChildren(nodes, id, k))
    decreases |nodes| - id, |nodes[id].children| - k
  {
    if k < |nodes[id].children| {
      PostOrderChildrenFirst(nodes, nodes[id].children[k]);
      PostChildrenChildrenFirst(nodes, id, k + 1);
      ChildrenFirstConcat(nodes, PostOrder(nodes, nodes[id].children[k]), PostChildren(nodes, id, k + 1));
    }
  }

  /** In a tree, the parent of a non-root node of a subtree is in the subtree too. */
  lemma {:induction false} ParentInSubtree(nodes: seq<AstNode>, a: nat, p: nat, k: nat)
    requires IsTree(nodes) && a < |nodes| && p < |nodes| && k < |nodes[p].children|
    requires nodes[p].children[k] in PostOrder(nodes, a) && nodes[p].children[k] != a
    ensures p in PostOrder(nodes, a)
    decreases |nodes| - a
  {
    var c := nodes[p].children[k];
    var ch := nodes[a].children;
    InPostChildren(nodes, a, 0, c);
    var j :| 0 <= j < |ch| && c in PostOrder(nodes, ch[j]);
    if c == ch[j] {
      assert p == a;
    } else {
      ParentInSubtree(nodes, ch[j], p, k);
      InPostChildren(nodes, a, 0, p);
    }
  }

  /** In a tree, two subtrees that share a node are nested. */
  lemma {:induction false} SharedNested(nodes: seq<AstNode>, a: nat, b: nat, e: nat)
    requires IsTree(nodes) && a < b < |nodes|
    requires e in PostOrder(nodes, a) && e in PostOrder(nodes, b)
    ensures b in PostOrder(nodes, a)
    decreases |nodes| - b
  {
    if e != b {
      var ch := nodes[b].children;
      InPostChildren(nodes, b, 0, e);
      var k :| 0 <= k < |ch| && e in PostOrder(nodes, ch[k]);
      SharedNested(nodes, a, ch[k], e);
      ParentInSubtree(nodes, a, b, k);
    }
  }

  /** Concatenating two disjoint sequences without repeats gives one without repeats. */
  lemma {:induction false} DistinctConcat(s: seq<nat>, t: seq<nat>)
    requires Distinct(s) && Distinct(t) && forall e :: e in s ==> e !in t
    ensures Distinct(s + t)
  {
    var u := s + t;
    forall i, j | 0 <= i < j < |u|
      ensures u[i] != u[j]
    {
      if i < |s| && j >= |s| {
        assert u[i] in s && u[j] == t[j - |s|];
      } else if i >= |s| {
        assert u[i] == t[i - |s|] && u[j] == t[j - |s|];
      }
    }
  }

  /** In a tree, a subtree's post-order lists no node twice. */
  lemma {:induction false} PostOrderDistinct(nodes: seq<AstNode>, id: nat)
    requires IsTree(nodes) && id < |nodes|
    ensures Distinct(PostOrder(nodes, id))
    decreases |nodes| - id, |nodes[id].children| + 1
  {
    PostChildrenDistinct(nodes, id, 0);
    PostChildrenAbove(nodes, id, 0);
    DistinctConcat(PostChildren(nodes, id, 0), [id]);
  }

  lemma {:induction false} PostChildrenDistinct(nodes: seq<AstNode>, id: nat, k: nat)
    requires IsTree(nodes) && id < |nodes| && k <= |nodes[id].children|
    ensures Distinct(PostChildren(nodes, id, k))
    decreases |nodes| - id, |nodes[id].children| - k
  {
    var ch := nodes[id].children;
    if k < |ch| {
      PostOrderDistinct(nodes, ch[k]);
      PostChildrenDistinct(nodes, id, k + 1);
      forall e | e in PostOrder(nodes, ch[k])
        ensures e !in PostChildren(nodes, id, k + 1)
      {
        InPostChildren(nodes, id, k + 1, e);
        if e in PostChildren(nodes, id, k + 1) {
          var j :| k + 1 <= j < |ch| && e in PostOrder(nodes, ch[j]);
          SiblingsDisjoint(nodes, id, k, j, e);
        }
      }
      DistinctConcat(PostOrder(nodes, ch[k]), PostChildren(nodes, id, k + 1));
    }
  }

  /** In a tree, the subtrees of two different children of one node share no node. */
  lemma {:induction false} SiblingsDisjoint(nodes: seq<AstNode>, id: nat, k: nat, j: nat, e: nat)
    requires IsTree(nodes) && id < |nodes| && k < j < |nodes[id].children|
    ensures !(e in PostOrder(nodes, nodes[id].children[k]) && e in PostOrder(nodes, nodes[id].children[j]))
  {
    var ch := nodes[id].children;
    if e in PostOrder(nodes, ch[k]) && e in PostOrder(nodes, ch[j]) {
      assert ch[k] != ch[j];
      var x, y, iy := ch[k], ch[j], j;
      if ch[j] < ch[k] {
        x, y, iy := ch[j], ch[k], k;
      }
      SharedNested(nodes, x, y, e);
      ParentInSubtree(nodes, x, id, iy);
      PostOrderAbove(nodes, x);
      assert false;
    }
  }

  /**
   * What is still to be emitted for a stack of (node, index among its
   * parent's children) frames when the top frame's children are all done:
   * the top node, the later siblings' subtrees, then the same for the rest.
   */
  function Pending(nodes: seq<AstNode>, stack: seq<(nat, nat)>): seq<nat>
    requires Ordered(nodes) && Frames(nodes, stack)
    decreases |stack|, 0
  {
    if stack == [] then []
    else
      var top := stack[|stack| - 1];
      [top.0] + Resume(nodes, stack[..|stack| - 1], top.1)
  }

  /** The later siblings' subtrees after child `c` of the top node, then the rest of the stack. */
  function Resume(nodes: seq<AstNode>, stack: seq<(nat, nat)>, c: nat): seq<nat>
    requires Ordered(nodes) && Frames(nodes, stack)
    requires stack != [] ==> c < |nodes[stack[|stack| - 1].0].children|
    decreases |stack|, 1
  {
    (if stack == [] then [] else PostChildren(nodes, stack[|stack| - 1].0, c + 1)) + Pending(nodes, stack)
  }

  /** Every frame's node exists, and every frame above the bottom one is at a valid child index of the frame below. */
  ghost predicate Frames(nodes: seq<AstNode>, stack: seq<(nat, nat)>)
  {
    && (forall j :: 0 <= j < |stack| ==> stack[j].0 < |nodes|)
    && (forall j :: 0 < j < |stack| ==> stack[j].1 < |nodes[stack[j - 1].0].children|)
  }

  /** The state of compute_post_order's loop: the order so far followed by what is still due is the whole order. */
  ghost predicate Traversing(nodes: seq<AstNode>, queue: seq<(nat, nat)>, root: Option<nat>, childIndex: nat, postorder: seq<nat>)
  {
    && |nodes| > 0 && Ordered(nodes)
    && Frames(nodes, queue)
    && (root.Some? ==> root.value < |nodes| && (queue != [] ==> childIndex < |nodes[queue[|queue| - 1].0].children|))
    && postorder + Due(nodes, queue, root, childIndex) == PostOrder(nodes, 0)
  }

  /**
   * What compute_post_order still has to emit in a given state: the
   * subtree it is about to descend into, if any, then the rest of the
   * stack.
   */
  ghost function Due(nodes: seq<AstNode>, queue: seq<(nat, nat)>, root: Option<nat>, childIndex: nat): seq<nat>
    requires Ordered(nodes) && Frames(nodes, queue)
    requires root.Some? ==> root.value < |nodes| && (queue != [] ==> childIndex < |nodes[queue[|queue| - 1].0].children|)
  {
    if root.Some? then PostOrder(nodes, root.value) + Resume(nodes, queue, childIndex)
    else Pending(nodes, queue)
  }

  /** The state before the first step. */
  lemma {:induction false} TraversalStarts(nodes: seq<AstNode>)
    requires |nodes| > 0 && Ordered(nodes)
    ensures Traversing(nodes, [], Some(0), 0, [])
  {
    assert Resume(nodes, [], 0) == [];
  }

  /** With the stack empty nothing more is due. */
  lemma {:induction false} TraversalEnds(nodes: seq<AstNode>, c: nat, childIndex: nat, postorder: seq<nat>)
    requires |nodes| > 0 && Ordered(nodes)
    requires postorder + Resume(nodes, [], c) == PostOrder(nodes, 0)
    ensures Traversing(nodes, [], None, childIndex, postorder)
  {
    assert Resume(nodes, [], c) == [];
  }

  /** Pushing a frame whose index is valid keeps the frames valid, and the pushed node is due first. */
  lemma {:induction false} PendingPush(nodes: seq<AstNode>, queue: seq<(nat, nat)>, r: nat, c: nat)
    requires Ordered(nodes) && Frames(nodes, queue) && r < |nodes|
    requires queue != [] ==> c < |nodes[queue[|queue| - 1].0].children|
    ensures Frames(nodes, queue + [(r, c)])
    ensures Pending(nodes, queue + [(r, c)]) == [r] + Resume(nodes, queue, c)
  {
    var s := queue + [(r, c)];
    assert s[..|s| - 1] == queue;
    assert Frames(nodes, s) by {
      forall j | 0 < j < |s|
        ensures s[j].1 < |nodes[s[j - 1].0].children|
      {
        if j < |queue| {
          assert s[j] == queue[j] && s[j - 1] == queue[j - 1];
        }
      }
    }
  }

  /** What is due is unchanged by a descent into the first child, or by pushing a leaf. */
  lemma {:induction false} DueDescend(nodes: seq<AstNode>, queue: seq<(nat, nat)>, r: nat, childIndex: nat)
    requires Ordered(nodes) && Frames(nodes, queue) && r < |nodes|
    requires queue != [] ==> childIndex < |nodes[queue[|queue| - 1].0].children|
    ensures Frames(nodes, queue + [(r, childIndex)])
    ensures nodes[r].children == [] ==>
      Due(nodes, queue + [(r, childIndex)], None, 0) == Due(nodes, queue, Some(r), childIndex)
    ensures nodes[r].children != [] ==>
      Due(nodes, queue + [(r, childIndex)], Some(nodes[r].children[0]), 0) == Due(nodes, queue, Some(r), childIndex)
  {
    var q := queue + [(r, childIndex)];
    var ch := nodes[r].children;
    PendingPush(nodes, queue, r, childIndex);
    if ch == [] {
      assert PostOrder(nodes, r) == [r];
    } else {
      DueDescendFirst(nodes, queue, r, childIndex);
    }
  }

  lemma {:induction false} DueDescendFirst(nodes: seq<AstNode>, queue: seq<(nat, nat)>, r: nat, childIndex: nat)
    requires Ordered(nodes) && Frames(nodes, queue) && Frames(nodes, queue + [(r, childIndex)]) && r < |nodes| && nodes[r].children != []
    requires queue != [] ==> childIndex < |nodes[queue[|queue| - 1].0].children|
    requires Pending(nodes, queue + [(r, childIndex)]) == [r] + Resume(nodes, queue, childIndex)
    ensures Due(nodes, queue + [(r, childIndex)], Some(nodes[r].children[0]), 0) == Due(nodes, queue, Some(r), childIndex)
  {
    var q := queue + [(r, childIndex)];
    var ch := nodes[r].children;
    var P, R := Pending(nodes, q), Resume(nodes, queue, childIndex);
    var A, B := PostOrder(nodes, ch[0]), PostChildren(nodes, r, 1);
    assert q[|q| - 1].0 == r && q[..|q| - 1] == queue;
    calc {
      Due(nodes, q, Some(ch[0]), 0);
      A + Resume(nodes, q, 0);
      A + (B + P);
      A + (B + ([r] + R));
      { assert B + ([r] + R) == (B + [r]) + R; }
      A + ((B + [r]) + R);
      (A + (B + [r])) + R;
      { assert A + (B + [r]) == (A + B) + [r]; }
      ((A + B) + [r]) + R;
      PostOrder(nodes, r) + R;
      Due(nodes, queue, Some(r), childIndex);
    }
  }

  /** Descending: the root is pushed with its child index, and its first child, if any, is next. */
  lemma {:induction false} DescendStep(nodes: seq<AstNode>, queue: seq<(nat, nat)>, r: nat, childIndex: nat, postorder: seq<nat>)
    requires Traversing(nodes, queue, Some(r), childIndex, postorder)
    ensures var q := queue + [(r, childIndex)];
      if nodes[r].children == [] then Traversing(nodes, q, None, 0, postorder)
      else Traversing(nodes, q, Some(nodes[r].children[0]), 0, postorder)
  {
    DueDescend(nodes, queue, r, childIndex);
  }

  /** Popping the top frame emits its node, and what is due is then resumed after its child index. */
  lemma {:induction false} PopStep(nodes: seq<AstNode>, queue: seq<(nat, nat)>, postorder: seq<nat>)
    requires |nodes| > 0 && Ordered(nodes) && Frames(nodes, queue) && queue != []
    requires postorder + Pending(nodes, queue) == PostOrder(nodes, 0)
    ensures var front := queue[..|queue| - 1];
      && Frames(nodes, front)
      && (front != [] ==> queue[|queue| - 1].1 < |nodes[front[|front| - 1].0].children|)
      && (postorder + [queue[|queue| - 1].0]) + Resume(nodes, front, queue[|queue| - 1].1) == PostOrder(nodes, 0)
  {
  }

  /** Resuming after the last child of the top frame leaves just the pending frames. */
  lemma {:induction false} ResumeAfterLast(nodes: seq<AstNode>, queue: seq<(nat, nat)>, c: nat)
    requires Ordered(nodes) && Frames(nodes, queue) && queue != []
    requires c == |nodes[queue[|queue| - 1].0].children| - 1
    ensures Resume(nodes, queue, c) == Pending(nodes, queue)
  {
  }

  /** Resuming before the last child of the top frame descends into the next child. */
  lemma {:induction false} ResumeNext(nodes: seq<AstNode>, queue: seq<(nat, nat)>, c: nat, postorder: seq<nat>)
    requires |nodes| > 0 && Ordered(nodes) && Frames(nodes, queue) && queue != []
    requires c + 1 < |nodes[queue[|queue| - 1].0].children|
    requires postorder + Resume(nodes, queue, c) == PostOrder(nodes, 0)
    ensures Traversing(nodes, queue, Some(nodes[queue[|queue| - 1].0].children[c + 1]), c + 1, postorder)
  {
    DueResume(nodes, queue, c);
  }

  /** What is due after child `c` of the top frame is the next child's subtree, then what is due after that child. */
  lemma {:induction false} DueResume(nodes: seq<AstNode>, queue: seq<(nat, nat)>, c: nat)
    requires Ordered(nodes) && Frames(nodes, queue) && queue != []
    requires c + 1 < |nodes[queue[|queue| - 1].0].children|
    ensures Resume(nodes, queue, c) == Due(nodes, queue, Some(nodes[queue[|queue| - 1].0].children[c + 1]), c + 1)
  {
    var top := queue[|queue| - 1].0;
    var r := nodes[top].children[c + 1];
    var A, B, P := PostOrder(nodes, r), PostChildren(nodes, top, c + 2), Pending(nodes, queue);
    assert PostChildren(nodes, top, c + 1) == A + B;
    assert Resume(nodes, queue, c + 1) == B + P;
    assert (A + B) + P == A + (B + P);
  }

  class PostOrderAstIterator {
    const ast: Ast
    var queue: seq<(nat, nat)>
    var root: Option<nat>
    var childIndex: nat
    var postorder: seq<nat>

    /** new: the traversal starts at node 0 and is computed before the first call of next. */
    constructor(ast: Ast)
      requires |ast.nodes| > 0 && Ordered(ast.nodes)
      ensures this.ast == ast
      ensures postorder == PostOrder(ast.nodes, 0)
    {
      this.ast := ast;
      queue := [];
      root := Some(0);
      childIndex := 0;
      postorder := [];
      new;
      ComputePostOrder();
    }

    /** next: hands out the computed order front to back. */
    method Next() returns (r: Option<nat>)
      modifies this
      ensures old(postorder) == [] ==> r == None && postorder == []
      ensures old(postorder) != [] ==> r == Some(old(postorder)[0]) && postorder == old(postorder)[1..]
    {
      if postorder == [] {
        return None;
      }
      r := Some(postorder[0]);
      postorder := postorder[1..];
    }

    /**
     * compute_post_order: descends along first children, pushing each node
     * with its index among its parent's children; at a leaf it pops and
     * emits frames while they were their parent's last child, then moves
     * on to the next sibling. The loop works on copies of the fields and
     * writes them back when it ends.
     */
    method ComputePostOrder()
      requires Traversing(ast.nodes, queue, root, childIndex, postorder)
      modifies this
      ensures postorder == PostOrder(ast.nodes, 0)
      ensures queue == [] && root == None
    {
      var nodes := ast.nodes;
      var stack, next, index, order := queue, root, childIndex, postorder;
      while true
        invariant Traversing(nodes, stack, next, index, order)
        decreases |PostOrder(nodes, 0)| - |order|, if next.Some? then |PostOrder(nodes, next.value)| else 0
      {
        if next.Some? {
          var r := next.value;
          DescendStep(nodes, stack, r, index, order);
          stack := stack + [(r, index)];
          index := 0;
          var rootChildren := nodes[r].children;
          if rootChildren == [] {
            next := None;
          } else {
            next := Some(rootChildren[0]);
            PostOrderSmaller(nodes, r);
          }
        } else if stack != [] {
          stack, next, index, order := Unwind(nodes, stack, index, order);
        } else {
          break;
        }
      }
      assert Pending(nodes, stack) == [];
      queue, root, childIndex, postorder := stack, next, index, order;
    }
  }

  /**
   * The popping half of compute_post_order: emits the top frame, and
   * frames below it while the one just emitted was its parent's last
   * child, then moves to the next sibling of the last one emitted.
   */
  method Unwind(nodes: seq<AstNode>, queue: seq<(nat, nat)>, childIndex: nat, postorder: seq<nat>)
    returns (queue': seq<(nat, nat)>, root': Option<nat>, childIndex': nat, postorder': seq<nat>)
    requires Traversing(nodes, queue, None, childIndex, postorder) && queue != []
    ensures Traversing(nodes, queue', root', childIndex', postorder')
    ensures |postorder'| > |postorder|
  {
    PopStep(nodes, queue, postorder);
    var temp: nat, tempChildIndex: nat := queue[|queue| - 1].0, queue[|queue| - 1].1;
    queue' := queue[..|queue| - 1];
    postorder' := postorder + [temp];
    queue', tempChildIndex, postorder' := PopFinished(nodes, queue', tempChildIndex, postorder');
    if queue' != [] {
      var peek := queue'[|queue'| - 1].0;
      ResumeNext(nodes, queue', tempChildIndex, postorder');
      root' := Some(nodes[peek].children[tempChildIndex + 1]);
      childIndex' := tempChildIndex + 1;
    } else {
      TraversalEnds(nodes, tempChildIndex, childIndex, postorder');
      root', childIndex' := None, childIndex;
    }
  }

  /** The inner loop of the popping half: pops and emits frames while the last one emitted was its parent's last child. */
  method PopFinished(nodes: seq<AstNode>, queue: seq<(nat, nat)>, childIndex: nat, postorder: seq<nat>)
    returns (queue': seq<(nat, nat)>, childIndex': nat, postorder': seq<nat>)
    requires |nodes| > 0 && Ordered(nodes) && Frames(nodes, queue)
    requires queue != [] ==> childIndex < |nodes[queue[|queue| - 1].0].children|
    requires postorder + Resume(nodes, queue, childIndex) == PostOrder(nodes, 0)
    ensures Frames(nodes, queue') && |postorder'| >= |postorder|
    ensures queue' != [] ==> childIndex' + 1 < |nodes[queue'[|queue'| - 1].0].children|
    ensures postorder' + Resume(nodes, queue', childIndex') == PostOrder(nodes, 0)
  {
    queue', childIndex', postorder' := queue, childIndex, postorder;
    while queue' != []
      invariant Frames(nodes, queue') && |postorder'| >= |postorder|
      invariant queue' != [] ==> childIndex' < |nodes[queue'[|queue'| - 1].0].children|
      invariant postorder' + Resume(nodes, queue', childIndex') == PostOrder(nodes, 0)
      decreases |queue'|
    {
      var peek := queue'[|queue'| - 1].0;
      if childIndex' != |nodes[peek].children| - 1 {
        break;
      }
      ResumeAfterLast(nodes, queue', childIndex');
      PopStep(nodes, queue', postorder');
      var temp: nat;
      temp, childIndex' := queue'[|queue'| - 1].0, queue'[|queue'| - 1].1;
      queue' := queue'[..|queue'| - 1];
      postorder' := postorder' + [temp];
    }
  }

  /** The first child's subtree is smaller than its parent's. */
  lemma {:induction false} PostOrderSmaller(nodes: seq<AstNode>, r: nat)
    requires Ordered(nodes) && r < |nodes| && nodes[r].children != []
    ensures |PostOrder(nodes, nodes[r].children[0])| < |PostOrder(nodes, r)|
  {
    assert PostChildren(nodes, r, 0) == PostOrder(nodes, nodes[r].children[0]) + PostChildren(nodes, r, 1);
  }

  /**
   * The order the iterator hands out: every node after all of its
   * children, each node reachable from the root exactly once, the root
   * last.
   */
  lemma {:induction false} PostOrderCorrect(nodes: seq<AstNode>)
    requires IsTree(nodes)
    ensures var po := PostOrder(nodes, 0);
      && ChildrenFirst(nodes, po)
      && Distinct(po)
      && (forall e :: e in po <==> Reachable(nodes, 0, e))
      && po[|po| - 1] == 0
  {
    PostOrderChildrenFirst(nodes, 0);
    PostOrderDistinct(nodes, 0);
    forall e
      ensures e in PostOrder(nodes, 0) <==> Reachable(nodes, 0, e)
    {
      PostOrderReachable(nodes, 0, e);
    }
  }
}
