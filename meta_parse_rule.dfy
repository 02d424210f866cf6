/**
 * The grammar rules of the Rust meta-parser
 * (crates/egg-parser/src/meta_parse_rule.rs): a rule is an arena of blocks
 * whose composite blocks refer to other blocks by index, plus the index of
 * the root block. Builders append blocks and rewire the root.
 */
module MetaParseRule {
  import opened Wrappers
  import opened Grammar
  import EggAst

  /** One building block of a rule; the composite ones name their children by index. */
  datatype Block =
    | Sym(symbol: Symbol)
    | Tok(lexeme: Lexeme)
    | Sequence(children: seq<nat>)
    | Any(children: seq<nat>)
    | Maybe(child: nat)
    | Star(child: nat)
    | Plus(child: nat)
    | Discard(child: nat)

  predicate IsLeaf(b: Block)
  {
    b.Sym? || b.Tok?
  }

  /** The indices a block refers to, in order. */
  function Ids(b: Block): seq<nat>
  {
    match b
    case Sym(_) => []
    case Tok(_) => []
    case Sequence(c) => c
    case Any(c) => c
    case Maybe(c) => [c]
    case Star(c) => [c]
    case Plus(c) => [c]
    case Discard(c) => [c]
  }

  /** The text to_string prints for a block. */
  function Label(b: Block): string
  {
    match b
    case Sym(s) => "Symbol<" + SymbolName(s) + ">"
    case Tok(l) => "Token<" + LexemeName(l) + ">"
    case Sequence(_) => "Sequence"
    case Any(_) => "Any"
    case Maybe(_) => "Maybe"
    case Star(_) => "Star"
    case Plus(_) => "Plus"
    case Discard(_) => "Discard"
  }

  /** increment_blocks on one block: every index it refers to moves up by `offset`; its kind does not change. */
  function Increment(b: Block, offset: nat): (r: Block)
    ensures Ids(r) == EggAst.Shift(Ids(b), offset)
    ensures Label(r) == Label(b)
    ensures IsLeaf(b) ==> r == b
  {
    match b
    case Sym(_) => b
    case Tok(_) => b
    case Sequence(c) => Sequence(EggAst.Shift(c, offset))
    case Any(c) => Any(EggAst.Shift(c, offset))
    case Maybe(c) => assert EggAst.Shift([c], offset) == [c + offset]; Maybe(c + offset)
    case Star(c) => assert EggAst.Shift([c], offset) == [c + offset]; Star(c + offset)
    case Plus(c) => assert EggAst.Shift([c], offset) == [c + offset]; Plus(c + offset)
    case Discard(c) => assert EggAst.Shift([c], offset) == [c + offset]; Discard(c + offset)
  }

  function IncrementAll(blocks: seq<Block>, offset: nat): seq<Block>
  {
    seq(|blocks|, i requires 0 <= i < |blocks| => Increment(blocks[i], offset))
  }

  /** A rule as a value: its blocks and the index of its root. */
  datatype RuleData = RuleData(blocks: seq<Block>, root: nat)

  /** Every index `b` refers to is below `n` and ranked below `r`. */
  ghost predicate Below(b: Block, n: nat, rank: seq<nat>, r: nat)
  {
    forall c :: c in Ids(b) ==> c < n && c < |rank| && rank[c] < r
  }

  /** Every index a block refers to is in the arena and has a smaller rank, so the blocks form no cycle. */
  ghost predicate Ranked(blocks: seq<Block>, rank: seq<nat>)
  {
    |rank| == |blocks| && forall i :: 0 <= i < |blocks| ==> Below(blocks[i], |blocks|, rank, rank[i])
  }

  /** No block refers to `id`. */
  ghost predicate Unreferenced(blocks: seq<Block>, id: nat)
  {
    forall i :: 0 <= i < |blocks| ==> id !in Ids(blocks[i])
  }

  /** What every builder keeps: the root is a block no other block refers to, and the blocks are acyclic. */
  ghost predicate WellFormed(r: RuleData)
  {
    r.root < |r.blocks| && Unreferenced(r.blocks, r.root) && exists rank :: Ranked(r.blocks, rank)
  }

  function Max(a: nat, b: nat): nat
  {
    if a < b then b else a
  }

  /** from, from_sym, from_tok: a one-block rule. */
  function Single(block: Block): RuleData
  {
    RuleData([block], 0)
  }

  /** then builds sequences and or builds alternatives in the same three ways. */
  datatype Joiner = SequenceOf | AnyOf

  function Group(j: Joiner, ids: seq<nat>): Block
  {
    match j
    case SequenceOf => Sequence(ids)
    case AnyOf => Any(ids)
  }

  predicate IsGroup(j: Joiner, b: Block)
  {
    match j
    case SequenceOf => b.Sequence?
    case AnyOf => b.Any?
  }

  /**
   * then and or: the other rule's blocks follow ours with their indices
   * shifted; then our root group gains the other root as last child, or
   * else the other root group gains our root as first child and becomes
   * the root, or else a new group of the two roots becomes the root.
   */
  function Joined(j: Joiner, a: RuleData, other: RuleData): RuleData
    requires a.root < |a.blocks| && other.root < |other.blocks|
  {
    GroupWith(j, a.blocks + IncrementAll(other.blocks, |a.blocks|), a.root, other.root + |a.blocks|, true)
  }

  /**
   * The root and the block at `c` grouped: `c` becomes the last child of a
   * root group; else, when `intoOther`, the root becomes the first child
   * of a `c` group, which becomes the root; else a new group of the two is
   * pushed and becomes the root.
   */
  function GroupWith(j: Joiner, blocks: seq<Block>, root: nat, c: nat, intoOther: bool): RuleData
    requires root < |blocks| && c < |blocks|
  {
    if IsGroup(j, blocks[root]) then RuleData(blocks[root := Group(j, Ids(blocks[root]) + [c])], root)
    else if intoOther && IsGroup(j, blocks[c]) then RuleData(blocks[c := Group(j, [root] + Ids(blocks[c]))], c)
    else RuleData(blocks + [Group(j, [root, c])], |blocks|)
  }

  /**
   * then_block, or_block, then_one_of, then_maybe, then_star, then_plus:
   * `extra` is pushed; its last block joins our root group as last child,
   * or else a new group of our root and that block becomes the root.
   */
  function Extended(j: Joiner, a: RuleData, extra: seq<Block>): RuleData
    requires a.root < |a.blocks| && extra != []
  {
    GroupWith(j, a.blocks + extra, a.root, |a.blocks| + |extra| - 1, false)
  }

  /** The indices from `lo` up to `hi`, as then_one_of collects them. */
  function Range(lo: nat, hi: nat): (r: seq<nat>)
    requires lo <= hi
    ensures |r| == hi - lo && forall i :: 0 <= i < |r| ==> r[i] == lo + i
    decreases hi - lo
  {
    if lo == hi then [] else [lo] + Range(lo + 1, hi)
  }

  /** The blocks then_one_of pushes: the options, then an Any over them. */
  function OneOf(n: nat, bs: seq<Block>): seq<Block>
  {
    bs + [Any(Range(n, n + |bs|))]
  }

  /** maybe, star, plus, discard: a wrapper around the old root is pushed and becomes the root. */
  function Wrapped(a: RuleData, w: Block): RuleData
  {
    RuleData(a.blocks + [w], |a.blocks|)
  }

  /** A wrapper block whose only child is `c`. */
  predicate IsWrapperOf(w: Block, c: nat)
  {
    (w.Maybe? || w.Star? || w.Plus? || w.Discard?) && Ids(w) == [c]
  }

  // ---------------------------------------------------------------------
  // Ranks: the acyclicity witness through the builders.

  lemma {:induction false} GroupIds(j: Joiner, ids: seq<nat>)
    ensures Ids(Group(j, ids)) == ids && Label(Group(j, ids)) == Label(Group(j, []))
  {
  }

  /** The members of a shifted sequence are the shifted members. */
  lemma {:induction false} InShift(s: seq<nat>, n: nat, c: nat)
    ensures c in EggAst.Shift(s, n) <==> c >= n && c - n in s
  {
    var t := EggAst.Shift(s, n);
    if c in t {
      var k :| 0 <= k < |t| && t[k] == c;
      assert s[k] == c - n;
    }
    if c >= n && c - n in s {
      var k :| 0 <= k < |s| && s[k] == c - n;
      assert t[k] == c;
    }
  }

  /** A bound stays true in a larger arena whose ranks extend the old ones. */
  lemma {:induction false} BelowExtend(b: Block, n: nat, rank: seq<nat>, r: nat, n2: nat, rank2: seq<nat>)
    requires Below(b, n, rank, r) && n <= n2 && rank <= rank2
    ensures Below(b, n2, rank2, r)
  {
    forall c | c in Ids(b)
      ensures c < n2 && c < |rank2| && rank2[c] < r
    {
      assert rank[c] == rank2[c];
    }
  }

  /** A bound stays true when the rank of an index the block does not refer to changes. */
  lemma {:induction false} BelowReplace(b: Block, n: nat, rank: seq<nat>, r: nat, id: nat, r2: nat)
    requires Below(b, n, rank, r) && id !in Ids(b) && id < |rank|
    ensures Below(b, n, rank[id := r2], r)
  {
  }

  /** A shifted block placed after `|ra|` blocks is bounded by the ranks placed after `ra`. */
  lemma {:induction false} IncrementBelow(b: Block, m: nat, rb: seq<nat>, r: nat, ra: seq<nat>)
    requires Below(b, m, rb, r)
    ensures Below(Increment(b, |ra|), |ra| + m, ra + rb, r)
  {
    var n := |ra|;
    forall c | c in Ids(Increment(b, n))
      ensures c < n + m && c < |ra + rb| && (ra + rb)[c] < r
    {
      InShift(Ids(b), n, c);
      assert (ra + rb)[c] == rb[c - n];
    }
  }

  /** Appending a block that refers only to lower-ranked blocks keeps the arena ranked. */
  lemma {:induction false} PushRanked(blocks: seq<Block>, rank: seq<nat>, b: Block, r: nat)
    requires Ranked(blocks, rank) && Below(b, |blocks|, rank, r)
    ensures Ranked(blocks + [b], rank + [r])
  {
    var bs, rs := blocks + [b], rank + [r];
    forall i | 0 <= i < |bs|
      ensures Below(bs[i], |bs|, rs, rs[i])
    {
      if i < |blocks| {
        assert bs[i] == blocks[i] && rs[i] == rank[i];
        BelowExtend(blocks[i], |blocks|, rank, rank[i], |bs|, rs);
      } else {
        BelowExtend(b, |blocks|, rank, r, |bs|, rs);
      }
    }
  }

  /** Replacing an unreferenced block by one that refers only to lower-ranked blocks keeps the arena ranked. */
  lemma {:induction false} ReplaceRanked(blocks: seq<Block>, rank: seq<nat>, id: nat, b: Block, r: nat)
    requires Ranked(blocks, rank) && id < |blocks| && Unreferenced(blocks, id) && rank[id] <= r
    requires Below(b, |blocks|, rank, r) && id !in Ids(b)
    ensures Ranked(blocks[id := b], rank[id := r])
  {
    var bs, rs := blocks[id := b], rank[id := r];
    forall i | 0 <= i < |bs|
      ensures Below(bs[i], |bs|, rs, rs[i])
    {
      if i == id {
        BelowReplace(b, |blocks|, rank, r, id, r);
      } else {
        assert bs[i] == blocks[i] && rs[i] == rank[i];
        BelowReplace(blocks[i], |blocks|, rank, rank[i], id, r);
      }
    }
  }

  /** Our blocks followed by the other rule's shifted blocks are ranked by the two ranks side by side. */
  lemma {:induction false} AppendRanked(a: seq<Block>, ra: seq<nat>, b: seq<Block>, rb: seq<nat>)
    requires Ranked(a, ra) && Ranked(b, rb)
    ensures Ranked(a + IncrementAll(b, |a|), ra + rb)
  {
    var n := |a|;
    var bs, rs := a + IncrementAll(b, n), ra + rb;
    forall i | 0 <= i < |bs|
      ensures Below(bs[i], |bs|, rs, rs[i])
    {
      if i < n {
        assert bs[i] == a[i] && rs[i] == ra[i];
        BelowExtend(a[i], n, ra, ra[i], |bs|, rs);
      } else {
        assert bs[i] == Increment(b[i - n], n) && rs[i] == rb[i - n];
        IncrementBelow(b[i - n], |b|, rb, rb[i - n], ra);
      }
    }
  }

  /** After appending shifted blocks, an index of ours that was unreferenced still is, and so is the other rule's shifted root. */
  lemma {:induction false} AppendUnreferenced(a: seq<Block>, ra: seq<nat>, b: seq<Block>, id: nat, rootB: nat)
    requires Ranked(a, ra) && Unreferenced(a, id) && id < |a| && Unreferenced(b, rootB)
    ensures Unreferenced(a + IncrementAll(b, |a|), id)
    ensures Unreferenced(a + IncrementAll(b, |a|), rootB + |a|)
  {
    var n := |a|;
    var bs := a + IncrementAll(b, n);
    forall i | 0 <= i < |bs|
      ensures id !in Ids(bs[i]) && rootB + n !in Ids(bs[i])
    {
      if i < n {
        assert bs[i] == a[i];
        assert Below(a[i], n, ra, ra[i]);
      } else {
        assert bs[i] == Increment(b[i - n], n);
        InShift(Ids(b[i - n]), n, id);
        InShift(Ids(b[i - n]), n, rootB + n);
      }
    }
  }

  /** A new last block is referred to by no block that refers only to indices below it. */
  lemma {:induction false} PushKeepsUnreferenced(blocks: seq<Block>, rank: seq<nat>, b: Block)
    requires Ranked(blocks, rank) && |blocks| !in Ids(b)
    ensures Unreferenced(blocks + [b], |blocks|)
  {
    var bs := blocks + [b];
    forall i | 0 <= i < |bs|
      ensures |blocks| !in Ids(bs[i])
    {
      if i < |blocks| {
        assert bs[i] == blocks[i];
      }
    }
  }

  /** Replacing block `id` by one that does not refer to `id` keeps `id` unreferenced. */
  lemma {:induction false} ReplaceKeepsUnreferenced(blocks: seq<Block>, id: nat, b: Block)
    requires id < |blocks| && Unreferenced(blocks, id) && id !in Ids(b)
    ensures Unreferenced(blocks[id := b], id)
  {
    var bs := blocks[id := b];
    forall i | 0 <= i < |bs|
      ensures id !in Ids(bs[i])
    {
      if i != id {
        assert bs[i] == blocks[i];
      }
    }
  }

  /** from_sym and from_tok give well-formed rules. */
  lemma {:induction false} FromWellFormed(block: Block)
    requires IsLeaf(block)
    ensures WellFormed(Single(block))
  {
    assert Ranked([block], [0]);
  }

  /** then and or keep rules well-formed. */
  lemma {:induction false} JoinWellFormed(j: Joiner, a: RuleData, other: RuleData)
    requires WellFormed(a) && WellFormed(other)
    ensures WellFormed(Joined(j, a, other))
  {
    var ra: seq<nat> :| Ranked(a.blocks, ra);
    var rb: seq<nat> :| Ranked(other.blocks, rb);
    var rank := JoinRank(j, a, ra, other, rb);
  }

  /** A rank for the result of then and or. */
  lemma {:induction false} JoinRank(j: Joiner, a: RuleData, ra: seq<nat>, other: RuleData, rb: seq<nat>) returns (rank: seq<nat>)
    requires Ranked(a.blocks, ra) && a.root < |a.blocks| && Unreferenced(a.blocks, a.root)
    requires Ranked(other.blocks, rb) && other.root < |other.blocks| && Unreferenced(other.blocks, other.root)
    ensures var r := Joined(j, a, other); r.root < |r.blocks| && Unreferenced(r.blocks, r.root) && Ranked(r.blocks, rank)
  {
    var blocks := a.blocks + IncrementAll(other.blocks, |a.blocks|);
    assert Joined(j, a, other) == GroupWith(j, blocks, a.root, other.root + |a.blocks|, true);
    AppendArena(a.blocks, ra, other.blocks, rb, a.root, other.root);
    rank := GroupWithRank(j, blocks, ra + rb, a.root, other.root + |a.blocks|, true);
  }

  /** The arena then and or build before grouping: ranked, with both roots in it, distinct and unreferenced. */
  lemma {:induction false} AppendArena(a: seq<Block>, ra: seq<nat>, b: seq<Block>, rb: seq<nat>, rootA: nat, rootB: nat)
    requires Ranked(a, ra) && rootA < |a| && Unreferenced(a, rootA)
    requires Ranked(b, rb) && rootB < |b| && Unreferenced(b, rootB)
    ensures var blocks := a + IncrementAll(b, |a|);
      && Ranked(blocks, ra + rb) && rootA < rootB + |a| < |blocks|
      && Unreferenced(blocks, rootA) && Unreferenced(blocks, rootB + |a|)
  {
    AppendRanked(a, ra, b, rb);
    AppendUnreferenced(a, ra, b, rootA, rootB);
  }

  /** Grouping two distinct unreferenced blocks keeps the arena ranked and gives an unreferenced root. */
  lemma {:induction false} GroupWithRank(j: Joiner, blocks: seq<Block>, rs: seq<nat>, root: nat, c: nat, intoOther: bool) returns (rank: seq<nat>)
    requires Ranked(blocks, rs) && root < |blocks| && c < |blocks| && root != c
    requires Unreferenced(blocks, root) && (intoOther ==> Unreferenced(blocks, c))
    ensures var r := GroupWith(j, blocks, root, c, intoOther); r.root < |r.blocks| && Unreferenced(r.blocks, r.root) && Ranked(r.blocks, rank)
  {
    if IsGroup(j, blocks[root]) {
      rank := GroupAppend(j, blocks, rs, root, c, Ids(blocks[root]) + [c]);
    } else if intoOther && IsGroup(j, blocks[c]) {
      rank := GroupAppend(j, blocks, rs, c, root, [root] + Ids(blocks[c]));
    } else {
      rank := GroupPush(j, blocks, rs, root, c);
    }
  }

  /** A root group that gains one more child, first or last, stays an unreferenced root of a ranked arena. */
  lemma {:induction false} GroupAppend(j: Joiner, blocks: seq<Block>, rs: seq<nat>, id: nat, c: nat, ids: seq<nat>) returns (rank: seq<nat>)
    requires Ranked(blocks, rs) && id < |blocks| && c < |blocks| && id != c
    requires Unreferenced(blocks, id)
    requires ids == Ids(blocks[id]) + [c] || ids == [c] + Ids(blocks[id])
    ensures Ranked(blocks[id := Group(j, ids)], rank) && Unreferenced(blocks[id := Group(j, ids)], id)
  {
    var r := Max(rs[id], rs[c] + 1);
    GroupIds(j, ids);
    assert Below(blocks[id], |blocks|, rs, rs[id]);
    assert Below(Group(j, ids), |blocks|, rs, r);
    assert id !in Ids(blocks[id]);
    ReplaceRanked(blocks, rs, id, Group(j, ids), r);
    ReplaceKeepsUnreferenced(blocks, id, Group(j, ids));
    rank := rs[id := r];
  }

  /** A new group of two blocks, pushed, is an unreferenced root of a ranked arena. */
  lemma {:induction false} GroupPush(j: Joiner, blocks: seq<Block>, rs: seq<nat>, x: nat, y: nat) returns (rank: seq<nat>)
    requires Ranked(blocks, rs) && x < |blocks| && y < |blocks|
    ensures Ranked(blocks + [Group(j, [x, y])], rank) && Unreferenced(blocks + [Group(j, [x, y])], |blocks|)
  {
    var r := Max(rs[x], rs[y]) + 1;
    GroupIds(j, [x, y]);
    PushRanked(blocks, rs, Group(j, [x, y]), r);
    PushKeepsUnreferenced(blocks, rs, Group(j, [x, y]));
    rank := rs + [r];
  }

  /**
   * The blocks a builder pushes after `n` blocks refer only to one
   * another, each to one of lower rank in `rank`.
   */
  ghost predicate SelfContained(n: nat, extra: seq<Block>, rank: seq<nat>)
  {
    && |rank| == |extra|
    && forall i :: 0 <= i < |extra| ==> forall c :: c in Ids(extra[i]) ==>
        n <= c < n + |extra| && rank[c - n] < rank[i]
  }

  /** A pushed self-contained block is bounded in the grown arena. */
  lemma {:induction false} ExtraBelow(extra: seq<Block>, er: seq<nat>, ra: seq<nat>, i: nat)
    requires SelfContained(|ra|, extra, er) && i < |extra|
    ensures Below(extra[i], |ra| + |extra|, ra + er, er[i])
    ensures forall c :: c in Ids(extra[i]) ==> c >= |ra|
  {
    forall c | c in Ids(extra[i])
      ensures c < |ra| + |extra| && c < |ra + er| && (ra + er)[c] < er[i]
    {
      assert (ra + er)[c] == er[c - |ra|];
    }
  }

  /** The then_* and or_* builders of pushed blocks keep rules well-formed. */
  lemma {:induction false} ExtendWellFormed(j: Joiner, a: RuleData, extra: seq<Block>, er: seq<nat>)
    requires WellFormed(a) && extra != [] && SelfContained(|a.blocks|, extra, er)
    ensures WellFormed(Extended(j, a, extra))
  {
    var ra: seq<nat> :| Ranked(a.blocks, ra);
    var rank := ExtendRank(j, a, ra, extra, er);
  }

  /** Our blocks followed by self-contained pushed blocks are ranked, and our root stays unreferenced. */
  lemma {:induction false} ExtendPushed(a: RuleData, ra: seq<nat>, extra: seq<Block>, er: seq<nat>)
    requires Ranked(a.blocks, ra) && a.root < |a.blocks| && Unreferenced(a.blocks, a.root)
    requires SelfContained(|a.blocks|, extra, er)
    ensures Ranked(a.blocks + extra, ra + er) && Unreferenced(a.blocks + extra, a.root)
  {
    var n := |a.blocks|;
    var blocks, rs := a.blocks + extra, ra + er;
    forall i | 0 <= i < |blocks|
      ensures Below(blocks[i], |blocks|, rs, rs[i]) && a.root !in Ids(blocks[i])
    {
      if i < n {
        assert blocks[i] == a.blocks[i] && rs[i] == ra[i];
        BelowExtend(a.blocks[i], n, ra, ra[i], |blocks|, rs);
      } else {
        assert blocks[i] == extra[i - n] && rs[i] == er[i - n];
        ExtraBelow(extra, er, ra, i - n);
      }
    }
  }

  lemma {:induction false} ExtendRank(j: Joiner, a: RuleData, ra: seq<nat>, extra: seq<Block>, er: seq<nat>) returns (rank: seq<nat>)
    requires Ranked(a.blocks, ra) && a.root < |a.blocks| && Unreferenced(a.blocks, a.root)
    requires extra != [] && SelfContained(|a.blocks|, extra, er)
    ensures var r := Extended(j, a, extra); r.root < |r.blocks| && Unreferenced(r.blocks, r.root) && Ranked(r.blocks, rank)
  {
    var blocks, last := a.blocks + extra, |a.blocks| + |extra| - 1;
    assert Extended(j, a, extra) == GroupWith(j, blocks, a.root, last, false);
    ExtendPushed(a, ra, extra, er);
    rank := GroupWithRank(j, blocks, ra + er, a.root, last, false);
  }

  /** then_block and or_block push one leaf. */
  lemma {:induction false} LeafSelfContained(n: nat, b: Block)
    requires IsLeaf(b)
    ensures SelfContained(n, [b], [0])
  {
  }

  /** then_maybe, then_star and then_plus push a leaf and a wrapper around it. */
  lemma {:induction false} WrappedSelfContained(n: nat, b: Block, w: Block)
    requires IsLeaf(b) && IsWrapperOf(w, n)
    ensures SelfContained(n, [b, w], [0, 1])
  {
    var extra := [b, w];
    forall i | 0 <= i < |extra|
      ensures forall c :: c in Ids(extra[i]) ==> n <= c < n + |extra| && [0, 1][c - n] < [0, 1][i]
    {
      if i == 1 {
        assert Ids(extra[i]) == [n];
      }
    }
  }

  /** then_one_of pushes leaves and an Any over all of them. */
  lemma {:induction false} OneOfSelfContained(n: nat, bs: seq<Block>)
    requires forall i :: 0 <= i < |bs| ==> IsLeaf(bs[i])
    ensures SelfContained(n, OneOf(n, bs), seq(|bs|, _ => 0) + [1])
  {
    var extra := OneOf(n, bs);
    var er: seq<nat> := seq(|bs|, _ => 0) + [1];
    forall i | 0 <= i < |extra|
      ensures forall c :: c in Ids(extra[i]) ==> n <= c < n + |extra| && er[c - n] < er[i]
    {
      if i < |bs| {
        assert extra[i] == bs[i];
      } else {
        var ids := Range(n, n + |bs|);
        assert Ids(extra[i]) == ids;
        forall c | c in ids
          ensures n <= c < n + |extra| && er[c - n] < er[i]
        {
          var k :| 0 <= k < |ids| && ids[k] == c;
        }
      }
    }
  }

  /** maybe, star, plus and discard keep rules well-formed. */
  lemma {:induction false} WrapWellFormed(a: RuleData, w: Block)
    requires WellFormed(a) && IsWrapperOf(w, a.root)
    ensures WellFormed(Wrapped(a, w))
  {
    var ra: seq<nat> :| Ranked(a.blocks, ra);
    PushRanked(a.blocks, ra, w, ra[a.root] + 1);
    PushKeepsUnreferenced(a.blocks, ra, w);
  }

  // ---------------------------------------------------------------------
  // Printing: the pre-order to_string writes.

  /** One line of the listing: a block's label at a depth. */
  datatype Entry = Entry(text: string, depth: nat)

  /** An indentation of `n` spaces. */
  function Spaces(n: nat): string
  {
    if n == 0 then "" else " " + Spaces(n - 1)
  }

  /** The line to_string writes for an entry: two spaces per level, a dash, the label. */
  function Line(e: Entry): string
  {
    Spaces(e.depth * 2) + "- " + e.text + "\n"
  }

  /** The text of a listing, line after line. */
  function Print(entries: seq<Entry>): string
  {
    if entries == [] then "" else Line(entries[0]) + Print(entries[1..])
  }

  /** A rule unfolded from a block: the block's label and the trees of its children in order. */
  datatype Tree = Node(text: string, kids: seq<Tree>)

  /** The tree a block roots. */
  ghost function TreeAt(blocks: seq<Block>, rank: seq<nat>, id: nat): Tree
    requires Ranked(blocks, rank) && id < |blocks|
    decreases rank[id]
  {
    var ids := Ids(blocks[id]);
    Node(Label(blocks[id]), seq(|ids|, k requires 0 <= k < |ids| =>
      ChildRanked(blocks, rank, id, k);
      TreeAt(blocks, rank, ids[k])))
  }

  /** The `k`-th child of a block is in the arena and ranked below it. */
  lemma {:induction false} ChildRanked(blocks: seq<Block>, rank: seq<nat>, id: nat, k: nat)
    requires Ranked(blocks, rank) && id < |blocks| && k < |Ids(blocks[id])|
    ensures Ids(blocks[id])[k] < |blocks| && rank[Ids(blocks[id])[k]] < rank[id]
  {
    assert Below(blocks[id], |blocks|, rank, rank[id]);
    assert Ids(blocks[id])[k] in Ids(blocks[id]);
  }

  /** The pre-order listing of a tree whose root stands at `depth`. */
  function Flatten(t: Tree, depth: nat): seq<Entry>
    decreases t
  {
    [Entry(t.text, depth)] + FlattenAll(t.kids, depth + 1)
  }

  /** The listings of trees side by side, all at `depth`. */
  function FlattenAll(ts: seq<Tree>, depth: nat): seq<Entry>
    decreases ts
  {
    if ts == [] then [] else Flatten(ts[0], depth) + FlattenAll(ts[1..], depth)
  }

  /** The blocks of `bs` from `n` on are those of `blocks` shifted by `n`, except perhaps at `skip`. */
  ghost predicate Moved(blocks: seq<Block>, bs: seq<Block>, n: nat, skip: nat)
  {
    n + |blocks| <= |bs| && forall i :: 0 <= i < |blocks| && i != skip ==> bs[i + n] == Increment(blocks[i], n)
  }

  /**
   * The tree at `id` depends neither on the ranks nor on blocks outside it:
   * it is the same in an arena holding the blocks shifted by `n`, whatever
   * stands at an unreferenced index `skip`.
   */
  lemma {:induction false} TreeMoved(blocks: seq<Block>, rank: seq<nat>, bs: seq<Block>, rs: seq<nat>, n: nat, skip: nat, id: nat)
    requires Ranked(blocks, rank) && Ranked(bs, rs) && id < |blocks| && id != skip
    requires Unreferenced(blocks, skip) && Moved(blocks, bs, n, skip)
    ensures TreeAt(bs, rs, id + n) == TreeAt(blocks, rank, id)
    decreases rank[id], 1
  {
    var t, u := TreeAt(bs, rs, id + n), TreeAt(blocks, rank, id);
    assert bs[id + n] == Increment(blocks[id], n);
    KidCount(bs, rs, id + n);
    KidCount(blocks, rank, id);
    forall k | 0 <= k < |u.kids|
      ensures t.kids[k] == u.kids[k]
    {
      KidMoved(blocks, rank, bs, rs, n, skip, id, k);
    }
    assert t.kids == u.kids;
  }

  /** The `k`-th subtree is the same in both arenas. */
  lemma {:induction false} KidMoved(blocks: seq<Block>, rank: seq<nat>, bs: seq<Block>, rs: seq<nat>, n: nat, skip: nat, id: nat, k: nat)
    requires Ranked(blocks, rank) && Ranked(bs, rs) && id < |blocks| && id != skip
    requires Unreferenced(blocks, skip) && Moved(blocks, bs, n, skip)
    requires k < |Ids(blocks[id])|
    ensures |TreeAt(bs, rs, id + n).kids| == |TreeAt(blocks, rank, id).kids|
    ensures TreeAt(bs, rs, id + n).kids[k] == TreeAt(blocks, rank, id).kids[k]
    decreases rank[id], 0
  {
    var ids := Ids(blocks[id]);
    assert bs[id + n] == Increment(blocks[id], n);
    assert Ids(bs[id + n]) == EggAst.Shift(ids, n);
    KidCount(bs, rs, id + n);
    KidCount(blocks, rank, id);
    var c := ids[k];
    KidAt(blocks, rank, id, k);
    KidAt(bs, rs, id + n, k);
    assert Ids(bs[id + n])[k] == c + n;
    assert c != skip;
    TreeMoved(blocks, rank, bs, rs, n, skip, c);
  }

  /** A block's tree has a subtree per child. */
  lemma {:induction false} KidCount(blocks: seq<Block>, rank: seq<nat>, id: nat)
    requires Ranked(blocks, rank) && id < |blocks|
    ensures TreeAt(blocks, rank, id).text == Label(blocks[id])
    ensures |TreeAt(blocks, rank, id).kids| == |Ids(blocks[id])|
  {
  }

  /** The `k`-th subtree of a block's tree is the tree of its `k`-th child. */
  lemma {:induction false} KidAt(blocks: seq<Block>, rank: seq<nat>, id: nat, k: nat)
    requires Ranked(blocks, rank) && id < |blocks| && k < |Ids(blocks[id])|
    ensures Ids(blocks[id])[k] < |blocks| && k < |TreeAt(blocks, rank, id).kids|
    ensures TreeAt(blocks, rank, id).kids[k] == TreeAt(blocks, rank, Ids(blocks[id])[k])
  {
    ChildRanked(blocks, rank, id, k);
  }

  /** Shifting by nothing leaves a block as it is. */
  lemma {:induction false} IncrementZero(b: Block)
    ensures Increment(b, 0) == b
  {
    match b
    case Sequence(c) => assert EggAst.Shift(c, 0) == c;
    case Any(c) => assert EggAst.Shift(c, 0) == c;
    case _ =>
  }

  /** An arena that agrees with `blocks` below `|blocks|`, except perhaps at `skip`, holds them shifted by nothing. */
  lemma {:induction false} MovedPrefix(blocks: seq<Block>, bs: seq<Block>, skip: nat)
    requires |blocks| <= |bs| && forall i :: 0 <= i < |blocks| && i != skip ==> bs[i] == blocks[i]
    ensures Moved(blocks, bs, 0, skip)
  {
    forall i | 0 <= i < |blocks| && i != skip
      ensures bs[i + 0] == Increment(blocks[i], 0)
    {
      IncrementZero(blocks[i]);
    }
  }

  /** An arena whose every reference is in bounds refers to nothing past its end. */
  lemma {:induction false} EndUnreferenced(blocks: seq<Block>, rank: seq<nat>)
    requires Ranked(blocks, rank)
    ensures Unreferenced(blocks, |blocks|)
  {
    forall i | 0 <= i < |blocks|
      ensures |blocks| !in Ids(blocks[i])
    {
      assert Below(blocks[i], |blocks|, rank, rank[i]);
    }
  }

  /** The tree of a well-formed rule. */
  ghost function TreeOf(r: RuleData): Tree
    requires WellFormed(r)
  {
    var rank :| Ranked(r.blocks, rank);
    TreeAt(r.blocks, rank, r.root)
  }

  /** Any ranking gives the same tree. */
  lemma {:induction false} TreeOfIs(r: RuleData, rank: seq<nat>)
    requires WellFormed(r) && Ranked(r.blocks, rank)
    ensures TreeOf(r) == TreeAt(r.blocks, rank, r.root)
  {
    var rank1: seq<nat> :| Ranked(r.blocks, rank1) && TreeOf(r) == TreeAt(r.blocks, rank1, r.root);
    MovedPrefix(r.blocks, r.blocks, |r.blocks|);
    EndUnreferenced(r.blocks, rank1);
    TreeMoved(r.blocks, rank1, r.blocks, rank, 0, |r.blocks|, r.root);
  }

  /** maybe, star, plus, discard: the wrapper's node over the old rule's tree. */
  lemma {:induction false} WrapTree(a: RuleData, w: Block)
    requires WellFormed(a) && IsWrapperOf(w, a.root)
    ensures WellFormed(Wrapped(a, w))
    ensures TreeOf(Wrapped(a, w)) == Node(Label(w), [TreeOf(a)])
  {
    WrapWellFormed(a, w);
    var ra: seq<nat> :| Ranked(a.blocks, ra);
    var r := Wrapped(a, w);
    var rs := ra + [ra[a.root] + 1];
    PushRanked(a.blocks, ra, w, ra[a.root] + 1);
    TreeOfIs(r, rs);
    TreeOfIs(a, ra);
    MovedPrefix(a.blocks, r.blocks, |a.blocks|);
    EndUnreferenced(a.blocks, ra);
    TreeMoved(a.blocks, ra, r.blocks, rs, 0, |a.blocks|, a.root);
    assert Ids(r.blocks[r.root]) == [a.root];
    ChildRanked(r.blocks, rs, r.root, 0);
    assert TreeAt(r.blocks, rs, r.root).kids == [TreeAt(r.blocks, rs, a.root)];
  }

  class Rule {
    var blocks: seq<Block>
    var root: nat
    ghost var rank: seq<nat>

    ghost predicate Valid()
      reads this
    {
      root < |blocks| && Unreferenced(blocks, root) && Ranked(blocks, rank)
    }

    function Data(): RuleData
      reads this
    {
      RuleData(blocks, root)
    }

    /** from: a one-block rule; the public builders pass a symbol or a token. */
    constructor From(block: Block)
      requires IsLeaf(block)
      ensures Valid() && Data() == Single(block)
    {
      blocks := [block];
      root := 0;
      rank := [0];
    }

    /** get_root. */
    function GetRoot(): (b: Block)
      requires Valid()
      reads this
      ensures b == blocks[root]
    {
      blocks[root]
    }

    /** increment_blocks: every index in every block moves up by `offset`. */
    method IncrementBlocks(offset: nat)
      modifies this
      ensures blocks == IncrementAll(old(blocks), offset) && root == old(root) && rank == old(rank)
    {
      var i := 0;
      while i < |blocks|
        invariant 0 <= i <= |blocks| == |old(blocks)| && root == old(root) && rank == old(rank)
        invariant blocks[..i] == IncrementAll(old(blocks), offset)[..i]
        invariant blocks[i..] == old(blocks)[i..]
      {
        assert blocks[i] == old(blocks)[i];
        blocks := blocks[i := Increment(blocks[i], offset)];
        i := i + 1;
      }
      assert blocks == blocks[..i];
    }

    /** then (SequenceOf) and or (AnyOf): the other rule's blocks are moved over, which empties it. */
    method Join(j: Joiner, other: Rule)
      requires Valid() && other.Valid() && other != this
      modifies this, other
      ensures Valid() && Data() == Joined(j, old(Data()), old(other.Data()))
      ensures other.blocks == []
    {
      ghost var a, o := Data(), other.Data();
      ghost var ra, rb := rank, other.rank;
      var oldLen := |blocks|;
      other.IncrementBlocks(oldLen);
      blocks := blocks + other.blocks;
      other.blocks := [];
      var ruleRootI := other.root + oldLen;
      if IsGroup(j, blocks[root]) {
        blocks := blocks[root := Group(j, Ids(blocks[root]) + [ruleRootI])];
      } else if IsGroup(j, blocks[ruleRootI]) {
        blocks := blocks[ruleRootI := Group(j, [root] + Ids(blocks[ruleRootI]))];
        root := ruleRootI;
      } else {
        blocks := blocks + [Group(j, [root, ruleRootI])];
        root := |blocks| - 1;
      }
      assert Data() == Joined(j, a, o);
      rank := JoinRank(j, a, ra, o, rb);
    }

    /** then: concatenation with another rule. */
    method Then(other: Rule)
      requires Valid() && other.Valid() && other != this
      modifies this, other
      ensures Valid() && Data() == Joined(SequenceOf, old(Data()), old(other.Data()))
      ensures other.blocks == []
    {
      Join(SequenceOf, other);
    }

    /** or: alternative with another rule. */
    method Or(other: Rule)
      requires Valid() && other.Valid() && other != this
      modifies this, other
      ensures Valid() && Data() == Joined(AnyOf, old(Data()), old(other.Data()))
      ensures other.blocks == []
    {
      Join(AnyOf, other);
    }

    /** The shared tail of the then_* and or_* builders: push `extra`, then group its last block with the root. */
    method Extend(j: Joiner, extra: seq<Block>, ghost er: seq<nat>)
      requires Valid() && extra != [] && SelfContained(|blocks|, extra, er)
      modifies this
      ensures Valid() && Data() == Extended(j, old(Data()), extra)
    {
      ghost var a, ra := Data(), rank;
      blocks := blocks + extra;
      var newId := |blocks| - 1;
      if IsGroup(j, blocks[root]) {
        blocks := blocks[root := Group(j, Ids(blocks[root]) + [newId])];
      } else {
        blocks := blocks + [Group(j, [root, newId])];
        root := newId + 1;
      }
      rank := ExtendRank(j, a, ra, extra, er);
    }

    /** then_block: a leaf block after this rule. */
    method ThenBlock(block: Block)
      requires Valid() && IsLeaf(block)
      modifies this
      ensures Valid() && Data() == Extended(SequenceOf, old(Data()), [block])
    {
      LeafSelfContained(|blocks|, block);
      Extend(SequenceOf, [block], [0]);
    }

    /** then_sym. */
    method ThenSym(symbol: Symbol)
      requires Valid()
      modifies this
      ensures Valid() && Data() == Extended(SequenceOf, old(Data()), [Sym(symbol)])
    {
      ThenBlock(Sym(symbol));
    }

    /** then_tok. */
    method ThenTok(lexeme: Lexeme)
      requires Valid()
      modifies this
      ensures Valid() && Data() == Extended(SequenceOf, old(Data()), [Tok(lexeme)])
    {
      ThenBlock(Tok(lexeme));
    }

    /** then_one_of: the leaves, an Any over them, in sequence after this rule. */
    method ThenOneOf(bs: seq<Block>)
      requires Valid() && forall i :: 0 <= i < |bs| ==> IsLeaf(bs[i])
      modifies this
      ensures Valid() && Data() == Extended(SequenceOf, old(Data()), OneOf(|old(blocks)|, bs))
    {
      var anyBlock := Any(Range(|blocks|, |blocks| + |bs|));
      OneOfSelfContained(|blocks|, bs);
      Extend(SequenceOf, bs + [anyBlock], seq(|bs|, _ => 0) + [1]);
    }

    /** then_maybe, then_star, then_plus: a leaf and a wrapper around it, in sequence after this rule. */
    method ThenWrapped(block: Block, wrapper: Block)
      requires Valid() && IsLeaf(block) && IsWrapperOf(wrapper, |blocks|) && !wrapper.Discard?
      modifies this
      ensures Valid() && Data() == Extended(SequenceOf, old(Data()), [block, wrapper])
    {
      WrappedSelfContained(|blocks|, block, wrapper);
      Extend(SequenceOf, [block, wrapper], [0, 1]);
    }

    /** then_maybe. */
    method ThenMaybe(block: Block)
      requires Valid() && IsLeaf(block)
      modifies this
      ensures Valid() && Data() == Extended(SequenceOf, old(Data()), [block, Block.Maybe(|old(blocks)|)])
    {
      ThenWrapped(block, Block.Maybe(|blocks|));
    }

    /** then_star. */
    method ThenStar(block: Block)
      requires Valid() && IsLeaf(block)
      modifies this
      ensures Valid() && Data() == Extended(SequenceOf, old(Data()), [block, Block.Star(|old(blocks)|)])
    {
      ThenWrapped(block, Block.Star(|blocks|));
    }

    /** then_plus. */
    method ThenPlus(block: Block)
      requires Valid() && IsLeaf(block)
      modifies this
      ensures Valid() && Data() == Extended(SequenceOf, old(Data()), [block, Block.Plus(|old(blocks)|)])
    {
      ThenWrapped(block, Block.Plus(|blocks|));
    }

    /** or_block: a leaf block as an alternative to this rule. */
    method OrBlock(block: Block)
      requires Valid() && IsLeaf(block)
      modifies this
      ensures Valid() && Data() == Extended(AnyOf, old(Data()), [block])
    {
      LeafSelfContained(|blocks|, block);
      Extend(AnyOf, [block], [0]);
    }

    /** or_sym. */
    method OrSym(symbol: Symbol)
      requires Valid()
      modifies this
      ensures Valid() && Data() == Extended(AnyOf, old(Data()), [Sym(symbol)])
    {
      OrBlock(Sym(symbol));
    }

    /** or_tok. */
    method OrTok(lexeme: Lexeme)
      requires Valid()
      modifies this
      ensures Valid() && Data() == Extended(AnyOf, old(Data()), [Tok(lexeme)])
    {
      OrBlock(Tok(lexeme));
    }

    /** maybe, star, plus, discard: the wrapper is pushed and becomes the root. */
    method Wrap(wrapper: Block)
      requires Valid() && IsWrapperOf(wrapper, root)
      modifies this
      ensures Valid() && Data() == Wrapped(old(Data()), wrapper)
    {
      ghost var a := Data();
      blocks := blocks + [wrapper];
      root := |blocks| - 1;
      PushRanked(a.blocks, rank, wrapper, rank[a.root] + 1);
      PushKeepsUnreferenced(a.blocks, rank, wrapper);
      rank := rank + [rank[a.root] + 1];
    }

    /** maybe. */
    method Maybe()
      requires Valid()
      modifies this
      ensures Valid() && Data() == Wrapped(old(Data()), Block.Maybe(old(root)))
    {
      Wrap(Block.Maybe(root));
    }

    /** star. */
    method Star()
      requires Valid()
      modifies this
      ensures Valid() && Data() == Wrapped(old(Data()), Block.Star(old(root)))
    {
      Wrap(Block.Star(root));
    }

    /** plus. */
    method Plus()
      requires Valid()
      modifies this
      ensures Valid() && Data() == Wrapped(old(Data()), Block.Plus(old(root)))
    {
      Wrap(Block.Plus(root));
    }

    /** discard. */
    method Discard()
      requires Valid()
      modifies this
      ensures Valid() && Data() == Wrapped(old(Data()), Block.Discard(old(root)))
    {
      Wrap(Block.Discard(root));
    }

    /** The rule as a value is well-formed. */
    lemma {:induction false} WellFormedOf()
      requires Valid()
      ensures WellFormed(Data())
    {
    }

    /**
     * to_string: a YAML-style listing, one block per line in pre-order, two
     * spaces of indentation per level. The stack holds (block, depth)
     * pairs; a popped block's children are pushed on its front in order.
     */
    method ToString() returns (r: string)
      requires Valid()
      ensures WellFormed(Data()) && r == "---\n" + Print(Flatten(TreeOf(Data()), 0))
    {
      WellFormedOf();
      var buffer := "---\n";
      var queue: seq<(nat, nat)> := [(root, 0)];
      ghost var target := buffer + Print(Flatten(TreeAt(blocks, rank, root), 0));
      QueueCons(blocks, rank, root, 0, []);
      assert [(root, 0)] + [] == queue;
      ghost var first := Flatten(TreeAt(blocks, rank, root), 0);
      assert first + [] == first;
      assert QueueListing(blocks, rank, queue) == first;
      while queue != []
        invariant forall i :: 0 <= i < |queue| ==> queue[i].0 < |blocks|
        invariant buffer + Print(QueueListing(blocks, rank, queue)) == target
        decreases |QueueListing(blocks, rank, queue)|
      {
        queue, buffer := PrintNext(queue, buffer);
      }
      TreeOfIs(Data(), rank);
      return buffer;
    }

    /** One round of to_string: the front block's line is written and its children take its place. */
    method PrintNext(queue: seq<(nat, nat)>, buffer: string) returns (next: seq<(nat, nat)>, written: string)
      requires Valid() && queue != [] && forall i :: 0 <= i < |queue| ==> queue[i].0 < |blocks|
      ensures forall i :: 0 <= i < |next| ==> next[i].0 < |blocks|
      ensures written + Print(QueueListing(blocks, rank, next)) == buffer + Print(QueueListing(blocks, rank, queue))
      ensures |QueueListing(blocks, rank, next)| < |QueueListing(blocks, rank, queue)|
      ensures written == buffer + Line(Entry(Label(blocks[queue[0].0]), queue[0].1))
      ensures next == Pairs(Ids(blocks[queue[0].0]), queue[0].1 + 1) + queue[1..]
    {
      var nodeId, depth := queue[0].0, queue[0].1;
      next := PushChildren(nodeId, depth + 1, queue[1..]);
      PrintRound(blocks, rank, queue, next, buffer);
      written := buffer + Line(Entry(Label(blocks[nodeId]), depth));
    }

    /** The inner loop of to_string: the children of `id`, in order, go on the front of the stack. */
    method PushChildren(id: nat, depth: nat, rest: seq<(nat, nat)>) returns (queue: seq<(nat, nat)>)
      requires Valid() && id < |blocks| && forall i :: 0 <= i < |rest| ==> rest[i].0 < |blocks|
      ensures forall i :: 0 <= i < |queue| ==> queue[i].0 < |blocks|
      ensures QueueListing(blocks, rank, queue) == FlattenAll(TreeAt(blocks, rank, id).kids, depth) + QueueListing(blocks, rank, rest)
      ensures queue == Pairs(Ids(blocks[id]), depth) + rest
    {
      var children := Ids(blocks[id]);
      ghost var kids := TreeAt(blocks, rank, id).kids;
      queue := rest;
      var j := |children|;
      assert kids[j..] == [];
      while j > 0
        invariant 0 <= j <= |children|
        invariant forall i :: 0 <= i < |queue| ==> queue[i].0 < |blocks|
        invariant QueueListing(blocks, rank, queue) == FlattenAll(kids[j..], depth) + QueueListing(blocks, rank, rest)
        invariant queue == Pairs(children[j..], depth) + rest
      {
        j := j - 1;
        ChildRanked(blocks, rank, id, j);
        PushFront(blocks, rank, id, j, depth, queue, rest);
        PairsPush(children, j, depth, queue, rest);
        queue := [(children[j], depth)] + queue;
      }
      assert kids[0..] == kids;
      assert children[0..] == children;
    }
  }

  /** Each id paired with the same depth, in order. */
  function Pairs(ids: seq<nat>, depth: nat): seq<(nat, nat)>
  {
    if ids == [] then [] else [(ids[0], depth)] + Pairs(ids[1..], depth)
  }

  /** Pushing the next id in front of the paired suffix pairs one id more. */
  lemma {:induction false} PairsPush(ids: seq<nat>, j: nat, depth: nat, queue: seq<(nat, nat)>, rest: seq<(nat, nat)>)
    requires j < |ids| && queue == Pairs(ids[j + 1..], depth) + rest
    ensures [(ids[j], depth)] + queue == Pairs(ids[j..], depth) + rest
  {
    assert ids[j..][1..] == ids[j + 1..];
  }

  /** The listings of the trees of the queued (block, depth) pairs, front to back. */
  ghost function QueueListing(blocks: seq<Block>, rank: seq<nat>, queue: seq<(nat, nat)>): seq<Entry>
    requires Ranked(blocks, rank) && forall i :: 0 <= i < |queue| ==> queue[i].0 < |blocks|
  {
    if queue == [] then [] else Flatten(TreeAt(blocks, rank, queue[0].0), queue[0].1) + QueueListing(blocks, rank, queue[1..])
  }

  /** Pushing child `j` on the front extends what the queue lists by that child's tree. */
  lemma {:induction false} PushFront(blocks: seq<Block>, rank: seq<nat>, id: nat, j: nat, depth: nat, queue: seq<(nat, nat)>, rest: seq<(nat, nat)>)
    requires Ranked(blocks, rank) && id < |blocks| && j < |Ids(blocks[id])| && Ids(blocks[id])[j] < |blocks|
    requires forall i :: 0 <= i < |queue| ==> queue[i].0 < |blocks|
    requires forall i :: 0 <= i < |rest| ==> rest[i].0 < |blocks|
    requires QueueListing(blocks, rank, queue)
      == FlattenAll(TreeAt(blocks, rank, id).kids[j + 1..], depth) + QueueListing(blocks, rank, rest)
    ensures QueueListing(blocks, rank, [(Ids(blocks[id])[j], depth)] + queue)
      == FlattenAll(TreeAt(blocks, rank, id).kids[j..], depth) + QueueListing(blocks, rank, rest)
  {
    var kids := TreeAt(blocks, rank, id).kids;
    var c := Ids(blocks[id])[j];
    KidAt(blocks, rank, id, j);
    QueueCons(blocks, rank, c, depth, queue);
    FlattenAllCons(kids, j, depth);
    var x := Flatten(kids[j], depth);
    var y, z := FlattenAll(kids[j + 1..], depth), QueueListing(blocks, rank, rest);
    Assoc(x, y, z);
  }

  /** The queue with a pair in front lists that pair's tree first. */
  lemma {:induction false} QueueCons(blocks: seq<Block>, rank: seq<nat>, c: nat, depth: nat, queue: seq<(nat, nat)>)
    requires Ranked(blocks, rank) && c < |blocks| && forall i :: 0 <= i < |queue| ==> queue[i].0 < |blocks|
    ensures QueueListing(blocks, rank, [(c, depth)] + queue) == Flatten(TreeAt(blocks, rank, c), depth) + QueueListing(blocks, rank, queue)
  {
    assert ([(c, depth)] + queue)[1..] == queue;
  }

  /** The listing of the trees from the `j`-th on starts with the `j`-th. */
  lemma {:induction false} FlattenAllCons(ts: seq<Tree>, j: nat, depth: nat)
    requires j < |ts|
    ensures FlattenAll(ts[j..], depth) == Flatten(ts[j], depth) + FlattenAll(ts[j + 1..], depth)
  {
    assert ts[j..][1..] == ts[j + 1..];
  }

  /** One round of to_string on the whole stack: the front's line, then the listing of the new stack, is the old stack's listing. */
  lemma {:induction false} PrintRound(blocks: seq<Block>, rank: seq<nat>, queue: seq<(nat, nat)>, next: seq<(nat, nat)>, buffer: string)
    requires Ranked(blocks, rank) && queue != [] && forall i :: 0 <= i < |queue| ==> queue[i].0 < |blocks|
    requires forall i :: 0 <= i < |next| ==> next[i].0 < |blocks|
    requires QueueListing(blocks, rank, next)
      == FlattenAll(TreeAt(blocks, rank, queue[0].0).kids, queue[0].1 + 1) + QueueListing(blocks, rank, queue[1..])
    ensures (buffer + Line(Entry(Label(blocks[queue[0].0]), queue[0].1))) + Print(QueueListing(blocks, rank, next))
      == buffer + Print(QueueListing(blocks, rank, queue))
    ensures |QueueListing(blocks, rank, next)| < |QueueListing(blocks, rank, queue)|
  {
    var e := Entry(Label(blocks[queue[0].0]), queue[0].1);
    var c, r := FlattenAll(TreeAt(blocks, rank, queue[0].0).kids, queue[0].1 + 1), QueueListing(blocks, rank, queue[1..]);
    assert QueueListing(blocks, rank, queue) == ([e] + c) + r;
    Assoc([e], c, r);
    assert ([e] + (c + r))[1..] == c + r;
    assert Print(QueueListing(blocks, rank, queue)) == Line(e) + Print(QueueListing(blocks, rank, next));
    Assoc(buffer, Line(e), Print(QueueListing(blocks, rank, next)));
  }

  /** Concatenation is associative. */
  lemma {:induction false} Assoc<T>(x: seq<T>, y: seq<T>, z: seq<T>)
    ensures x + (y + z) == (x + y) + z
  {
  }
}
