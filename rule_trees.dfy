/**
 * What the builders of meta_parse_rule.rs do to the tree a rule prints:
 * then and or, then_block and its relatives, expressed on the trees of
 * the rules they combine, so that no statement mentions block indices.
 */
module RuleTrees {
  import opened Grammar
  import opened MetaParseRule
  import EggAst

  /** The label of the group then (Sequence) or or (Any) builds. */
  function JoinerLabel(j: Joiner): string
  {
    match j
    case SequenceOf => "Sequence"
    case AnyOf => "Any"
  }

  /**
   * The tree after then_block and its relatives, whose pushed blocks read
   * as `t`: `t` joins a root group of the same kind as its last child, or
   * else a new group holds the old tree and `t`.
   */
  function ExtendedTree(j: Joiner, root: Block, ta: Tree, t: Tree): Tree
  {
    if IsGroup(j, root) then Node(ta.text, ta.kids + [t]) else Node(JoinerLabel(j), [ta, t])
  }

  /**
   * The tree after then and or: as for a pushed block, except that when
   * only the other root is a group of that kind, our tree becomes its first
   * child.
   */
  function JoinedTree(j: Joiner, rootA: Block, rootB: Block, ta: Tree, tb: Tree): Tree
  {
    if !IsGroup(j, rootA) && IsGroup(j, rootB) then Node(tb.text, [ta] + tb.kids) else ExtendedTree(j, rootA, ta, tb)
  }

  lemma {:induction false} GroupLabel(j: Joiner, b: Block, ids: seq<nat>)
    requires IsGroup(j, b)
    ensures Label(Group(j, ids)) == Label(b) == JoinerLabel(j)
  {
    match j
    case SequenceOf =>
    case AnyOf =>
  }

  /** The `k`-th subtree at `p` in `bs` is the tree of `c` in `blocks`, which `bs` holds unshifted apart from `skip`. */
  lemma {:induction false} KidKept(blocks: seq<Block>, rank: seq<nat>, bs: seq<Block>, rs: seq<nat>, skip: nat, p: nat, k: nat, c: nat)
    requires Ranked(blocks, rank) && Ranked(bs, rs) && p < |bs| && k < |Ids(bs[p])| && Ids(bs[p])[k] == c
    requires c < |blocks| && c != skip && Unreferenced(blocks, skip) && Moved(blocks, bs, 0, skip)
    ensures k < |TreeAt(bs, rs, p).kids| && TreeAt(bs, rs, p).kids[k] == TreeAt(blocks, rank, c)
  {
    KidAt(bs, rs, p, k);
    TreeKept(blocks, rank, bs, rs, skip, c);
  }

  /** The tree at `id` is the same in an arena that holds `blocks` unshifted, apart from an unreferenced `skip`. */
  lemma {:induction false} TreeKept(blocks: seq<Block>, rank: seq<nat>, bs: seq<Block>, rs: seq<nat>, skip: nat, id: nat)
    requires Ranked(blocks, rank) && Ranked(bs, rs) && id < |blocks| && id != skip
    requires Unreferenced(blocks, skip) && Moved(blocks, bs, 0, skip)
    ensures TreeAt(bs, rs, id) == TreeAt(blocks, rank, id)
  {
    TreeMoved(blocks, rank, bs, rs, 0, skip, id);
  }

  /** The first case of GroupWith: `c` becomes the last child of the root group. */
  lemma {:induction false} IntoRootTree(j: Joiner, blocks: seq<Block>, rs: seq<nat>, root: nat, c: nat, rank: seq<nat>)
    requires Ranked(blocks, rs) && root < |blocks| && c < |blocks| && root != c && Unreferenced(blocks, root)
    requires IsGroup(j, blocks[root])
    requires Ranked(blocks[root := Group(j, Ids(blocks[root]) + [c])], rank)
    ensures TreeAt(blocks[root := Group(j, Ids(blocks[root]) + [c])], rank, root)
      == Node(TreeAt(blocks, rs, root).text, TreeAt(blocks, rs, root).kids + [TreeAt(blocks, rs, c)])
  {
    var ids := Ids(blocks[root]);
    var bs := blocks[root := Group(j, ids + [c])];
    GroupIds(j, ids + [c]);
    GroupLabel(j, blocks[root], ids + [c]);
    MovedPrefix(blocks, bs, root);
    var t, u := TreeAt(bs, rank, root), TreeAt(blocks, rs, root);
    KidCount(bs, rank, root);
    KidCount(blocks, rs, root);
    forall k | 0 <= k < |ids|
      ensures t.kids[k] == u.kids[k]
    {
      KidAt(blocks, rs, root, k);
      KidKept(blocks, rs, bs, rank, root, root, k, ids[k]);
    }
    KidKept(blocks, rs, bs, rank, root, root, |ids|, c);
    assert t.kids == u.kids + [TreeAt(blocks, rs, c)];
  }

  /** The second case of GroupWith: the root becomes the first child of the group at `c`. */
  lemma {:induction false} IntoOtherTree(j: Joiner, blocks: seq<Block>, rs: seq<nat>, root: nat, c: nat, rank: seq<nat>)
    requires Ranked(blocks, rs) && root < |blocks| && c < |blocks| && root != c && Unreferenced(blocks, c)
    requires IsGroup(j, blocks[c])
    requires Ranked(blocks[c := Group(j, [root] + Ids(blocks[c]))], rank)
    ensures TreeAt(blocks[c := Group(j, [root] + Ids(blocks[c]))], rank, c)
      == Node(TreeAt(blocks, rs, c).text, [TreeAt(blocks, rs, root)] + TreeAt(blocks, rs, c).kids)
  {
    var ids := Ids(blocks[c]);
    var bs := blocks[c := Group(j, [root] + ids)];
    GroupIds(j, [root] + ids);
    GroupLabel(j, blocks[c], [root] + ids);
    MovedPrefix(blocks, bs, c);
    KidCount(bs, rank, c);
    KidCount(blocks, rs, c);
    PrependedKids(blocks, rs, bs, rank, root, c);
  }

  /** The subtrees at `c` once `root` is put in front of its members. */
  lemma {:induction false} PrependedKids(blocks: seq<Block>, rs: seq<nat>, bs: seq<Block>, rank: seq<nat>, root: nat, c: nat)
    requires Ranked(blocks, rs) && Ranked(bs, rank) && root < |blocks| && c < |blocks| && c < |bs| && root != c
    requires Unreferenced(blocks, c) && Moved(blocks, bs, 0, c) && Ids(bs[c]) == [root] + Ids(blocks[c])
    ensures TreeAt(bs, rank, c).kids == [TreeAt(blocks, rs, root)] + TreeAt(blocks, rs, c).kids
  {
    var t, u := TreeAt(bs, rank, c), TreeAt(blocks, rs, c);
    var w := [TreeAt(blocks, rs, root)] + u.kids;
    KidCount(bs, rank, c);
    KidCount(blocks, rs, c);
    assert |t.kids| == |w|;
    forall i | 0 <= i < |w|
      ensures t.kids[i] == w[i]
    {
      if i == 0 {
        KidKept(blocks, rs, bs, rank, c, c, 0, root);
      } else {
        PrependedKid(blocks, rs, bs, rank, root, c, i - 1);
      }
    }
    assert t.kids == w;
  }

  lemma {:induction false} PrependedKid(blocks: seq<Block>, rs: seq<nat>, bs: seq<Block>, rank: seq<nat>, root: nat, c: nat, k: nat)
    requires Ranked(blocks, rs) && Ranked(bs, rank) && root < |blocks| && c < |blocks| && c < |bs| && root != c
    requires Unreferenced(blocks, c) && Moved(blocks, bs, 0, c) && Ids(bs[c]) == [root] + Ids(blocks[c])
    requires k < |Ids(blocks[c])|
    ensures k + 1 < |TreeAt(bs, rank, c).kids| && k < |TreeAt(blocks, rs, c).kids|
    ensures TreeAt(bs, rank, c).kids[k + 1] == TreeAt(blocks, rs, c).kids[k]
  {
    var ids := Ids(blocks[c]);
    assert Ids(bs[c])[k + 1] == ids[k];
    KidAt(blocks, rs, c, k);
    KidKept(blocks, rs, bs, rank, c, c, k + 1, ids[k]);
  }

  /** The third case of GroupWith: a new group of the two is pushed. */
  lemma {:induction false} PushedGroupTree(j: Joiner, blocks: seq<Block>, rs: seq<nat>, root: nat, c: nat, rank: seq<nat>)
    requires Ranked(blocks, rs) && root < |blocks| && c < |blocks|
    requires Ranked(blocks + [Group(j, [root, c])], rank)
    ensures TreeAt(blocks + [Group(j, [root, c])], rank, |blocks|)
      == Node(JoinerLabel(j), [TreeAt(blocks, rs, root), TreeAt(blocks, rs, c)])
  {
    var bs := blocks + [Group(j, [root, c])];
    GroupIds(j, [root, c]);
    GroupLabel(j, Group(j, []), [root, c]);
    MovedPrefix(blocks, bs, |blocks|);
    EndUnreferenced(blocks, rs);
    var t := TreeAt(bs, rank, |blocks|);
    KidCount(bs, rank, |blocks|);
    KidKept(blocks, rs, bs, rank, |blocks|, |blocks|, 0, root);
    KidKept(blocks, rs, bs, rank, |blocks|, |blocks|, 1, c);
    assert t.kids == [TreeAt(blocks, rs, root), TreeAt(blocks, rs, c)];
  }

  /** GroupWith on trees, for the ranking GroupWithRank gives. */
  lemma {:induction false} GroupWithTree(j: Joiner, blocks: seq<Block>, rs: seq<nat>, root: nat, c: nat, intoOther: bool) returns (rank: seq<nat>)
    requires Ranked(blocks, rs) && root < |blocks| && c < |blocks| && root != c
    requires Unreferenced(blocks, root) && (intoOther ==> Unreferenced(blocks, c))
    ensures var r := GroupWith(j, blocks, root, c, intoOther);
      && r.root < |r.blocks| && Unreferenced(r.blocks, r.root) && Ranked(r.blocks, rank)
      && (intoOther ==> TreeAt(r.blocks, rank, r.root) == JoinedTree(j, blocks[root], blocks[c], TreeAt(blocks, rs, root), TreeAt(blocks, rs, c)))
      && (!intoOther ==> TreeAt(r.blocks, rank, r.root) == ExtendedTree(j, blocks[root], TreeAt(blocks, rs, root), TreeAt(blocks, rs, c)))
  {
    rank := GroupWithRank(j, blocks, rs, root, c, intoOther);
    if IsGroup(j, blocks[root]) {
      IntoRootTree(j, blocks, rs, root, c, rank);
    } else if intoOther && IsGroup(j, blocks[c]) {
      IntoOtherTree(j, blocks, rs, root, c, rank);
    } else {
      PushedGroupTree(j, blocks, rs, root, c, rank);
    }
  }

  /** Shifting keeps a block a group of the same kind. */
  lemma {:induction false} IncrementGroup(j: Joiner, b: Block, n: nat)
    ensures IsGroup(j, Increment(b, n)) == IsGroup(j, b)
  {
    match b
    case Sequence(_) =>
    case Any(_) =>
    case _ =>
  }

  /** from, from_sym, from_tok on trees: a single leaf. */
  lemma {:induction false} SingleTree(b: Block)
    requires IsLeaf(b)
    ensures WellFormed(Single(b)) && TreeOf(Single(b)) == Node(Label(b), [])
  {
    assert Ranked([b], [0]) by {
      assert Below(b, 1, [0], 0);
    }
    FromWellFormed(b);
    TreeOfIs(Single(b), [0]);
    KidCount([b], [0], 0);
  }

  /** The arena then and or build holds both rules' blocks, the other's shifted past ours. */
  lemma {:induction false} ArenaMoved(a: seq<Block>, b: seq<Block>)
    ensures Moved(a, a + IncrementAll(b, |a|), 0, |a|)
    ensures Moved(b, a + IncrementAll(b, |a|), |a|, |b|)
  {
    MovedPrefix(a, a + IncrementAll(b, |a|), |a|);
  }

  /** Blocks pushed after an arena do not change the trees in it. */
  lemma {:induction false} PrefixTree(blocks: seq<Block>, rank: seq<nat>, extra: seq<Block>, rs: seq<nat>, id: nat)
    requires Ranked(blocks, rank) && Ranked(blocks + extra, rs) && id < |blocks|
    ensures TreeAt(blocks + extra, rs, id) == TreeAt(blocks, rank, id)
  {
    MovedPrefix(blocks, blocks + extra, |blocks|);
    EndUnreferenced(blocks, rank);
    TreeKept(blocks, rank, blocks + extra, rs, |blocks|, id);
  }

  /** The other rule's trees, in the arena then and or build, sit shifted past ours. */
  lemma {:induction false} SuffixTree(a: seq<Block>, b: seq<Block>, rb: seq<nat>, rs: seq<nat>, id: nat)
    requires Ranked(b, rb) && Ranked(a + IncrementAll(b, |a|), rs) && id < |b|
    ensures TreeAt(a + IncrementAll(b, |a|), rs, id + |a|) == TreeAt(b, rb, id)
  {
    ArenaMoved(a, b);
    EndUnreferenced(b, rb);
    TreeMoved(b, rb, a + IncrementAll(b, |a|), rs, |a|, |b|, id);
  }

  /** then and or on trees, for given rankings. */
  lemma {:induction false} JoinRankTree(j: Joiner, a: RuleData, ra: seq<nat>, other: RuleData, rb: seq<nat>) returns (rank: seq<nat>)
    requires Ranked(a.blocks, ra) && a.root < |a.blocks| && Unreferenced(a.blocks, a.root)
    requires Ranked(other.blocks, rb) && other.root < |other.blocks| && Unreferenced(other.blocks, other.root)
    ensures var r := Joined(j, a, other);
      Ranked(r.blocks, rank) && r.root < |r.blocks| &&
      TreeAt(r.blocks, rank, r.root)
        == JoinedTree(j, a.blocks[a.root], other.blocks[other.root], TreeAt(a.blocks, ra, a.root), TreeAt(other.blocks, rb, other.root))
  {
    var n := |a.blocks|;
    var blocks := a.blocks + IncrementAll(other.blocks, n);
    assert Joined(j, a, other) == GroupWith(j, blocks, a.root, other.root + n, true);
    AppendArena(a.blocks, ra, other.blocks, rb, a.root, other.root);
    rank := GroupWithTree(j, blocks, ra + rb, a.root, other.root + n, true);
    PrefixTree(a.blocks, ra, IncrementAll(other.blocks, n), ra + rb, a.root);
    SuffixTree(a.blocks, other.blocks, rb, ra + rb, other.root);
    ShiftedAt(a.blocks, other.blocks, other.root);
    IncrementGroup(j, other.blocks[other.root], n);
    assert blocks[a.root] == a.blocks[a.root];
    JoinedTreeKind(j, a.blocks[a.root], blocks[other.root + n], other.blocks[other.root],
      TreeAt(a.blocks, ra, a.root), TreeAt(other.blocks, rb, other.root));
  }

  /** JoinedTree looks only at whether the other root is a group of the kind. */
  lemma {:induction false} JoinedTreeKind(j: Joiner, rootA: Block, rootB: Block, rootB2: Block, ta: Tree, tb: Tree)
    requires IsGroup(j, rootB) == IsGroup(j, rootB2)
    ensures JoinedTree(j, rootA, rootB, ta, tb) == JoinedTree(j, rootA, rootB2, ta, tb)
  {
  }

  /** The other rule's blocks sit shifted past ours. */
  lemma {:induction false} ShiftedAt(a: seq<Block>, b: seq<Block>, i: nat)
    requires i < |b|
    ensures (a + IncrementAll(b, |a|))[i + |a|] == Increment(b[i], |a|)
  {
    assert (a + IncrementAll(b, |a|))[i + |a|] == IncrementAll(b, |a|)[i];
  }

  /** then and or on trees. */
  lemma {:induction false} JoinTree(j: Joiner, a: RuleData, other: RuleData)
    requires WellFormed(a) && WellFormed(other)
    ensures WellFormed(Joined(j, a, other))
    ensures TreeOf(Joined(j, a, other)) == JoinedTree(j, a.blocks[a.root], other.blocks[other.root], TreeOf(a), TreeOf(other))
  {
    var ra: seq<nat> :| Ranked(a.blocks, ra);
    var rb: seq<nat> :| Ranked(other.blocks, rb);
    TreeOfIs(a, ra);
    TreeOfIs(other, rb);
    var r := Joined(j, a, other);
    JoinWellFormed(j, a, other);
    var rank := JoinRankTree(j, a, ra, other, rb);
    TreeOfIs(r, rank);
  }

  /** The arena then_block and its relatives build, before grouping, holds our tree at our root. */
  lemma {:induction false} ExtendArenaTree(a: RuleData, ra: seq<nat>, extra: seq<Block>, er: seq<nat>)
    requires Ranked(a.blocks, ra) && a.root < |a.blocks| && Unreferenced(a.blocks, a.root)
    requires extra != [] && SelfContained(|a.blocks|, extra, er)
    ensures var blocks := a.blocks + extra;
      && Ranked(blocks, ra + er) && Unreferenced(blocks, a.root) && a.root < |blocks| - 1
      && blocks[a.root] == a.blocks[a.root]
      && TreeAt(blocks, ra + er, a.root) == TreeAt(a.blocks, ra, a.root)
  {
    var blocks := a.blocks + extra;
    ExtendPushed(a, ra, extra, er);
    PrefixTree(a.blocks, ra, extra, ra + er, a.root);
  }

  /** then_block and its relatives on trees, for given rankings. */
  lemma {:induction false} ExtendRankTree(j: Joiner, a: RuleData, ra: seq<nat>, extra: seq<Block>, er: seq<nat>) returns (rank: seq<nat>)
    requires Ranked(a.blocks, ra) && a.root < |a.blocks| && Unreferenced(a.blocks, a.root)
    requires extra != [] && SelfContained(|a.blocks|, extra, er)
    ensures Ranked(a.blocks + extra, ra + er)
    ensures var r := Extended(j, a, extra);
      && r.root < |r.blocks| && Unreferenced(r.blocks, r.root) && Ranked(r.blocks, rank)
      && TreeAt(r.blocks, rank, r.root)
        == ExtendedTree(j, a.blocks[a.root], TreeAt(a.blocks, ra, a.root), TreeAt(a.blocks + extra, ra + er, |a.blocks| + |extra| - 1))
  {
    var blocks := a.blocks + extra;
    var last := |a.blocks| + |extra| - 1;
    assert Extended(j, a, extra) == GroupWith(j, blocks, a.root, last, false);
    ExtendArenaTree(a, ra, extra, er);
    rank := GroupWithTree(j, blocks, ra + er, a.root, last, false);
  }

  /** then_block and its relatives on trees: `t` is the tree of the last pushed block. */
  lemma {:induction false} ExtendTree(j: Joiner, a: RuleData, ra: seq<nat>, extra: seq<Block>, er: seq<nat>, t: Tree)
    requires WellFormed(a) && Ranked(a.blocks, ra) && extra != [] && SelfContained(|a.blocks|, extra, er)
    requires Ranked(a.blocks + extra, ra + er) && TreeAt(a.blocks + extra, ra + er, |a.blocks| + |extra| - 1) == t
    ensures WellFormed(Extended(j, a, extra))
    ensures TreeOf(Extended(j, a, extra)) == ExtendedTree(j, a.blocks[a.root], TreeOf(a), t)
  {
    TreeOfIs(a, ra);
    var r := Extended(j, a, extra);
    var rank := ExtendRankTree(j, a, ra, extra, er);
    assert WellFormed(r);
    TreeOfIs(r, rank);
  }

  /** then_block, then_sym, then_tok, or_block, or_sym, or_tok on trees. */
  lemma {:induction false} ExtendLeafTree(j: Joiner, a: RuleData, b: Block)
    requires WellFormed(a) && IsLeaf(b)
    ensures WellFormed(Extended(j, a, [b]))
    ensures TreeOf(Extended(j, a, [b])) == ExtendedTree(j, a.blocks[a.root], TreeOf(a), Node(Label(b), []))
  {
    var ra: seq<nat> :| Ranked(a.blocks, ra);
    LeafSelfContained(|a.blocks|, b);
    ExtendPushed(a, ra, [b], [0]);
    KidCount(a.blocks + [b], ra + [0], |a.blocks|);
    ExtendTree(j, a, ra, [b], [0], Node(Label(b), []));
  }

  /** then_maybe, then_star, then_plus on trees: the wrapper's node over the leaf's. */
  lemma {:induction false} ExtendWrappedTree(a: RuleData, b: Block, w: Block)
    requires WellFormed(a) && IsLeaf(b) && IsWrapperOf(w, |a.blocks|)
    ensures WellFormed(Extended(SequenceOf, a, [b, w]))
    ensures TreeOf(Extended(SequenceOf, a, [b, w])) ==
      ExtendedTree(SequenceOf, a.blocks[a.root], TreeOf(a), Node(Label(w), [Node(Label(b), [])]))
  {
    var ra: seq<nat> :| Ranked(a.blocks, ra);
    var n := |a.blocks|;
    WrappedSelfContained(n, b, w);
    ExtendPushed(a, ra, [b, w], [0, 1]);
    var bs, rs := a.blocks + [b, w], ra + [0, 1];
    KidCount(bs, rs, n);
    KidCount(bs, rs, n + 1);
    KidAt(bs, rs, n + 1, 0);
    assert TreeAt(bs, rs, n + 1).kids == [Node(Label(b), [])];
    ExtendTree(SequenceOf, a, ra, [b, w], [0, 1], Node(Label(w), [Node(Label(b), [])]));
  }

  /** The tree of one option of then_one_of. */
  function OptionTrees(bs: seq<Block>): seq<Tree>
  {
    seq(|bs|, i requires 0 <= i < |bs| => Node(Label(bs[i]), []))
  }

  /** then_one_of on trees: an Any node over the options. */
  lemma {:induction false} ExtendOneOfTree(a: RuleData, bs: seq<Block>)
    requires WellFormed(a) && forall i :: 0 <= i < |bs| ==> IsLeaf(bs[i])
    ensures WellFormed(Extended(SequenceOf, a, OneOf(|a.blocks|, bs)))
    ensures TreeOf(Extended(SequenceOf, a, OneOf(|a.blocks|, bs))) ==
      ExtendedTree(SequenceOf, a.blocks[a.root], TreeOf(a), Node("Any", OptionTrees(bs)))
  {
    var ra: seq<nat> :| Ranked(a.blocks, ra);
    var n := |a.blocks|;
    var extra := OneOf(n, bs);
    var er := seq(|bs|, _ => 0) + [1];
    OneOfSelfContained(n, bs);
    ExtendPushed(a, ra, extra, er);
    var blocks, rs := a.blocks + extra, ra + er;
    var top := n + |bs|;
    assert blocks[top] == Any(Range(n, n + |bs|));
    var t := TreeAt(blocks, rs, top);
    KidCount(blocks, rs, top);
    forall k | 0 <= k < |bs|
      ensures t.kids[k] == OptionTrees(bs)[k]
    {
      KidAt(blocks, rs, top, k);
      assert blocks[n + k] == bs[k];
      KidCount(blocks, rs, n + k);
    }
    assert t.kids == OptionTrees(bs);
    ExtendTree(SequenceOf, a, ra, extra, er, Node("Any", OptionTrees(bs)));
  }
}
