/**
 * Listings of rules built as in crates/egg-parser/tests/meta_parse_test.rs,
 * derived from the tree lemmas of the builders rather than by running them.
 * A listing is stated as its entries, one (label, depth) pair per line;
 * Line renders each as two spaces per level, a dash and the label.
 */
module RuleExamples {
  import opened Grammar
  import opened MetaParseRule
  import opened RuleTrees

  /** The tree of a leaf block. */
  function Leaf(b: Block): Tree
  {
    Node(Label(b), [])
  }

  lemma {:induction false} FlattenLeaf(text: string, d: nat)
    ensures Flatten(Node(text, []), d) == [Entry(text, d)]
  {
    assert FlattenAll([], d + 1) == [];
  }

  lemma {:induction false} FlattenPair(t1: Tree, t2: Tree, d: nat)
    ensures FlattenAll([t1, t2], d) == Flatten(t1, d) + Flatten(t2, d)
  {
    assert [t1, t2][1..] == [t2];
    assert FlattenAll([t2], d) == Flatten(t2, d) + FlattenAll([], d);
  }

  lemma {:induction false} FlattenTriple(t1: Tree, t2: Tree, t3: Tree, d: nat)
    ensures FlattenAll([t1, t2, t3], d) == Flatten(t1, d) + Flatten(t2, d) + Flatten(t3, d)
  {
    assert [t1, t2, t3][1..] == [t2, t3];
    FlattenPair(t2, t3, d);
  }

  lemma {:induction false} FlattenSingle(t: Tree, d: nat)
    ensures FlattenAll([t], d) == Flatten(t, d)
  {
    assert [t][1..] == [];
  }

  /** The Debug spellings the listings below use. */
  lemma {:induction false} Labels()
    ensures Label(Sym(Program)) == "Symbol<Program>" && Label(Sym(ExecChain)) == "Symbol<ExecChain>"
    ensures Label(Sym(Exec)) == "Symbol<Exec>" && Label(Sym(PipeExec)) == "Symbol<PipeExec>"
    ensures Label(Sym(RedirectExec)) == "Symbol<RedirectExec>"
    ensures Label(Tok(Redirect)) == "Token<Redirect>" && Label(Tok(Pipe)) == "Token<Pipe>" && Label(Tok(Literal)) == "Token<Literal>"
  {
    SymbolLabels();
    TokenLabels();
  }

  lemma {:induction false} SymbolLabels()
    ensures Label(Sym(Program)) == "Symbol<Program>" && Label(Sym(ExecChain)) == "Symbol<ExecChain>"
    ensures Label(Sym(Exec)) == "Symbol<Exec>" && Label(Sym(PipeExec)) == "Symbol<PipeExec>"
    ensures Label(Sym(RedirectExec)) == "Symbol<RedirectExec>"
  {
  }

  lemma {:induction false} TokenLabels()
    ensures Label(Tok(Redirect)) == "Token<Redirect>" && Label(Tok(Pipe)) == "Token<Pipe>" && Label(Tok(Literal)) == "Token<Literal>"
  {
  }

  /** from(x).then_block(y) and from(x).or_block(y): a new group of the two leaves. */
  lemma {:induction false} LeafPairTree(j: Joiner, x: Block, y: Block)
    requires IsLeaf(x) && IsLeaf(y)
    ensures var r := Extended(j, Single(x), [y]);
      && WellFormed(r) && r.root == 2 && r.blocks[2] == Group(j, [0, 1])
      && TreeOf(r) == Node(JoinerLabel(j), [Leaf(x), Leaf(y)])
  {
    SingleTree(x);
    ExtendLeafTree(j, Single(x), y);
  }

  /** from_sym(Program).then_sym(ExecChain): a new Sequence holds both symbols. */
  lemma {:induction false} ThenSymListing()
    ensures var r := Extended(SequenceOf, Single(Sym(Program)), [Sym(ExecChain)]);
      WellFormed(r) && Flatten(TreeOf(r), 0) == [Entry("Sequence", 0), Entry("Symbol<Program>", 1), Entry("Symbol<ExecChain>", 1)]
  {
    LeafPairTree(SequenceOf, Sym(Program), Sym(ExecChain));
    FlattenPair(Leaf(Sym(Program)), Leaf(Sym(ExecChain)), 1);
    Labels();
    FlattenLeaf(Label(Sym(Program)), 1);
    FlattenLeaf(Label(Sym(ExecChain)), 1);
  }

  /** from_sym(Program).or_sym(ExecChain): a new Any holds both symbols. */
  lemma {:induction false} OrSymListing()
    ensures var r := Extended(AnyOf, Single(Sym(Program)), [Sym(ExecChain)]);
      WellFormed(r) && Flatten(TreeOf(r), 0) == [Entry("Any", 0), Entry("Symbol<Program>", 1), Entry("Symbol<ExecChain>", 1)]
  {
    LeafPairTree(AnyOf, Sym(Program), Sym(ExecChain));
    FlattenPair(Leaf(Sym(Program)), Leaf(Sym(ExecChain)), 1);
    Labels();
    FlattenLeaf(Label(Sym(Program)), 1);
    FlattenLeaf(Label(Sym(ExecChain)), 1);
  }

  /** The tree of from_sym(Program).then_tok(Redirect).then_one_of([ExecChain, Pipe, Literal]). */
  lemma {:induction false} ThenOneOfTree()
    ensures var r1 := Extended(SequenceOf, Single(Sym(Program)), [Tok(Redirect)]);
      var bs := [Sym(ExecChain), Tok(Pipe), Tok(Literal)];
      WellFormed(r1) && WellFormed(Extended(SequenceOf, r1, OneOf(|r1.blocks|, bs)))
      && TreeOf(Extended(SequenceOf, r1, OneOf(|r1.blocks|, bs))) ==
        Node("Sequence", [Leaf(Sym(Program)), Leaf(Tok(Redirect)), Node("Any", [Leaf(Sym(ExecChain)), Leaf(Tok(Pipe)), Leaf(Tok(Literal))])])
  {
    LeafPairTree(SequenceOf, Sym(Program), Tok(Redirect));
    var r1 := Extended(SequenceOf, Single(Sym(Program)), [Tok(Redirect)]);
    var bs := [Sym(ExecChain), Tok(Pipe), Tok(Literal)];
    ExtendOneOfTree(r1, bs);
    assert OptionTrees(bs) == [Leaf(Sym(ExecChain)), Leaf(Tok(Pipe)), Leaf(Tok(Literal))];
  }

  /** The lines of a Sequence of two leaves and an Any of three. */
  lemma {:induction false} ThenOneOfEntries()
    ensures Flatten(Node("Sequence", [Leaf(Sym(Program)), Leaf(Tok(Redirect)), Node("Any", [Leaf(Sym(ExecChain)), Leaf(Tok(Pipe)), Leaf(Tok(Literal))])]), 0) ==
      [Entry("Sequence", 0), Entry("Symbol<Program>", 1), Entry("Token<Redirect>", 1), Entry("Any", 1),
         Entry("Symbol<ExecChain>", 2), Entry("Token<Pipe>", 2), Entry("Token<Literal>", 2)]
  {
    var any := Node("Any", [Leaf(Sym(ExecChain)), Leaf(Tok(Pipe)), Leaf(Tok(Literal))]);
    FlattenTriple(Leaf(Sym(Program)), Leaf(Tok(Redirect)), any, 1);
    FlattenTriple(Leaf(Sym(ExecChain)), Leaf(Tok(Pipe)), Leaf(Tok(Literal)), 2);
    Labels();
    FlattenLeaf(Label(Sym(Program)), 1);
    FlattenLeaf(Label(Tok(Redirect)), 1);
    FlattenLeaf(Label(Sym(ExecChain)), 2);
    FlattenLeaf(Label(Tok(Pipe)), 2);
    FlattenLeaf(Label(Tok(Literal)), 2);
  }

  /** from_sym(Program).then_tok(Redirect).then_one_of([ExecChain, Pipe, Literal]): the options join the Sequence as one Any. */
  lemma {:induction false} ThenOneOfListing()
    ensures var r1 := Extended(SequenceOf, Single(Sym(Program)), [Tok(Redirect)]);
      var bs := [Sym(ExecChain), Tok(Pipe), Tok(Literal)];
      WellFormed(r1) && WellFormed(Extended(SequenceOf, r1, OneOf(|r1.blocks|, bs)))
      && Flatten(TreeOf(Extended(SequenceOf, r1, OneOf(|r1.blocks|, bs))), 0) ==
        [Entry("Sequence", 0), Entry("Symbol<Program>", 1), Entry("Token<Redirect>", 1), Entry("Any", 1),
         Entry("Symbol<ExecChain>", 2), Entry("Token<Pipe>", 2), Entry("Token<Literal>", 2)]
  {
    ThenOneOfTree();
    ThenOneOfEntries();
  }

  /** The tree of from_tok(Pipe).then(from_tok(Redirect).or_sym(RedirectExec).then_sym(Exec)). */
  lemma {:induction false} ThenIntoSequenceTree()
    ensures var other := Extended(SequenceOf, Extended(AnyOf, Single(Tok(Redirect)), [Sym(RedirectExec)]), [Sym(Exec)]);
      WellFormed(other) && WellFormed(Joined(SequenceOf, Single(Tok(Pipe)), other))
      && TreeOf(Joined(SequenceOf, Single(Tok(Pipe)), other)) ==
        Node("Sequence", [Leaf(Tok(Pipe)), Node("Any", [Leaf(Tok(Redirect)), Leaf(Sym(RedirectExec))]), Leaf(Sym(Exec))])
  {
    LeafPairTree(AnyOf, Tok(Redirect), Sym(RedirectExec));
    var b1 := Extended(AnyOf, Single(Tok(Redirect)), [Sym(RedirectExec)]);
    ExtendLeafTree(SequenceOf, b1, Sym(Exec));
    var other := Extended(SequenceOf, b1, [Sym(Exec)]);
    assert other.blocks[other.root] == Sequence([2, 3]);
    SingleTree(Tok(Pipe));
    JoinTree(SequenceOf, Single(Tok(Pipe)), other);
  }

  /** The lines of a Sequence of a leaf, an Any of two and a leaf. */
  lemma {:induction false} ThenIntoSequenceEntries()
    ensures Flatten(Node("Sequence", [Leaf(Tok(Pipe)), Node("Any", [Leaf(Tok(Redirect)), Leaf(Sym(RedirectExec))]), Leaf(Sym(Exec))]), 0) ==
      [Entry("Sequence", 0), Entry("Token<Pipe>", 1), Entry("Any", 1),
         Entry("Token<Redirect>", 2), Entry("Symbol<RedirectExec>", 2), Entry("Symbol<Exec>", 1)]
  {
    var any := Node("Any", [Leaf(Tok(Redirect)), Leaf(Sym(RedirectExec))]);
    FlattenTriple(Leaf(Tok(Pipe)), any, Leaf(Sym(Exec)), 1);
    FlattenPair(Leaf(Tok(Redirect)), Leaf(Sym(RedirectExec)), 2);
    Labels();
    FlattenLeaf(Label(Tok(Pipe)), 1);
    FlattenLeaf(Label(Sym(Exec)), 1);
    FlattenLeaf(Label(Tok(Redirect)), 2);
    FlattenLeaf(Label(Sym(RedirectExec)), 2);
  }

  /** from_tok(Pipe).then(from_tok(Redirect).or_sym(RedirectExec).then_sym(Exec)): Pipe becomes the first child of the other rule's Sequence. */
  lemma {:induction false} ThenIntoSequenceListing()
    ensures var other := Extended(SequenceOf, Extended(AnyOf, Single(Tok(Redirect)), [Sym(RedirectExec)]), [Sym(Exec)]);
      WellFormed(other) && WellFormed(Joined(SequenceOf, Single(Tok(Pipe)), other))
      && Flatten(TreeOf(Joined(SequenceOf, Single(Tok(Pipe)), other)), 0) ==
        [Entry("Sequence", 0), Entry("Token<Pipe>", 1), Entry("Any", 1),
         Entry("Token<Redirect>", 2), Entry("Symbol<RedirectExec>", 2), Entry("Symbol<Exec>", 1)]
  {
    ThenIntoSequenceTree();
    ThenIntoSequenceEntries();
  }

  /** The tree of from_tok(Literal).then(from_sym(PipeExec).or_sym(RedirectExec).maybe()). */
  lemma {:induction false} ThenMaybeRuleTree()
    ensures var other := Wrapped(Extended(AnyOf, Single(Sym(PipeExec)), [Sym(RedirectExec)]), Block.Maybe(2));
      WellFormed(other) && WellFormed(Joined(SequenceOf, Single(Tok(Literal)), other))
      && TreeOf(Joined(SequenceOf, Single(Tok(Literal)), other)) ==
        Node("Sequence", [Leaf(Tok(Literal)), Node("Maybe", [Node("Any", [Leaf(Sym(PipeExec)), Leaf(Sym(RedirectExec))])])])
  {
    LeafPairTree(AnyOf, Sym(PipeExec), Sym(RedirectExec));
    var b1 := Extended(AnyOf, Single(Sym(PipeExec)), [Sym(RedirectExec)]);
    WrapTree(b1, Block.Maybe(2));
    var other := Wrapped(b1, Block.Maybe(2));
    assert other.blocks[other.root] == Block.Maybe(2);
    SingleTree(Tok(Literal));
    JoinTree(SequenceOf, Single(Tok(Literal)), other);
  }

  /** The lines of a Sequence of a leaf and a Maybe of an Any of two. */
  lemma {:induction false} ThenMaybeRuleEntries()
    ensures Flatten(Node("Sequence", [Leaf(Tok(Literal)), Node("Maybe", [Node("Any", [Leaf(Sym(PipeExec)), Leaf(Sym(RedirectExec))])])]), 0) ==
      [Entry("Sequence", 0), Entry("Token<Literal>", 1), Entry("Maybe", 1),
         Entry("Any", 2), Entry("Symbol<PipeExec>", 3), Entry("Symbol<RedirectExec>", 3)]
  {
    var any := Node("Any", [Leaf(Sym(PipeExec)), Leaf(Sym(RedirectExec))]);
    FlattenPair(Leaf(Tok(Literal)), Node("Maybe", [any]), 1);
    FlattenSingle(any, 2);
    FlattenPair(Leaf(Sym(PipeExec)), Leaf(Sym(RedirectExec)), 3);
    Labels();
    FlattenLeaf(Label(Tok(Literal)), 1);
    FlattenLeaf(Label(Sym(PipeExec)), 3);
    FlattenLeaf(Label(Sym(RedirectExec)), 3);
  }

  /** from_tok(Literal).then(from_sym(PipeExec).or_sym(RedirectExec).maybe()): the Maybe is one child of a new Sequence. */
  lemma {:induction false} ThenMaybeRuleListing()
    ensures var other := Wrapped(Extended(AnyOf, Single(Sym(PipeExec)), [Sym(RedirectExec)]), Block.Maybe(2));
      WellFormed(other) && WellFormed(Joined(SequenceOf, Single(Tok(Literal)), other))
      && Flatten(TreeOf(Joined(SequenceOf, Single(Tok(Literal)), other)), 0) ==
        [Entry("Sequence", 0), Entry("Token<Literal>", 1), Entry("Maybe", 1),
         Entry("Any", 2), Entry("Symbol<PipeExec>", 3), Entry("Symbol<RedirectExec>", 3)]
  {
    ThenMaybeRuleTree();
    ThenMaybeRuleEntries();
  }
}
