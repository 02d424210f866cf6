/**
 * The maximal-munch trie of eggo/lexer/max_munch.go: a trie of operator
 * patterns, built by grouping patterns on their next character, and a
 * lookup that walks the trie as far as the input allows.
 */
module MaxMunch {
  import opened Wrappers

  /** A match: the token of the pattern and its length. */
  datatype MaxMunchResult<T> = MaxMunchResult(token: T, length: nat)

  /** A trie node; `result` is present exactly when the node is terminal. */
  datatype MMNode<T> = MMNode(children: map<char, MMNode<T>>, result: Option<MaxMunchResult<T>>)
  {
    predicate Terminal() { result.Some? }
  }

  datatype MaxMunchTrie<T> = MaxMunchTrie(root: MMNode<T>, firstByte: set<char>)

  /** The patterns that continue with character `c` after `depth` characters. */
  function Sub<T>(patterns: map<string, T>, depth: nat, c: char): (sub: map<string, T>)
    ensures forall p :: p in sub <==> p in patterns && |p| > depth && p[depth] == c
  {
    map p | p in patterns && |p| > depth && p[depth] == c :: patterns[p]
  }

  /** The characters that some pattern has at position `depth`. */
  function NextChars<T>(patterns: map<string, T>, depth: nat): set<char>
  {
    set p | p in patterns && |p| > depth :: p[depth]
  }

  /**
   * `n` is the node that grouping `patterns` at `depth` yields: terminal
   * exactly when some pattern ends here (with that pattern's token), one
   * child per next character, each child standing for its sub-patterns.
   */
  ghost predicate Represents<T>(n: MMNode<T>, patterns: map<string, T>, depth: nat)
    decreases n
  {
    && (n.Terminal() <==> exists p :: p in patterns && |p| == depth)
    && (n.Terminal() ==>
          exists p :: p in patterns && |p| == depth && n.result.value == MaxMunchResult(patterns[p], depth))
    && n.children.Keys == NextChars(patterns, depth)
    && forall c :: c in n.children ==> Represents(n.children[c], Sub(patterns, depth, c), depth + 1)
  }

  /** Every position still to be grouped below `depth`; shrinks at each level. */
  ghost function Positions<T>(patterns: map<string, T>, depth: nat): set<(string, int)>
  {
    set p, i | p in patterns && depth <= i < |p| :: (p, i)
  }

  lemma {:induction false} PositionsShrink<T>(patterns: map<string, T>, depth: nat, c: char)
    requires c in NextChars(patterns, depth)
    ensures Positions(Sub(patterns, depth, c), depth + 1) < Positions(patterns, depth)
  {
    var p :| p in patterns && |p| > depth && p[depth] == c;
    assert (p, depth as int) in Positions(patterns, depth);
    assert (p, depth as int) !in Positions(Sub(patterns, depth, c), depth + 1);
  }

  /** The patterns whose key is in `done`. */
  function Restrict<T>(patterns: map<string, T>, done: set<string>): map<string, T>
  {
    map p | p in patterns && p in done :: patterns[p]
  }

  /** `result` records the token of the pattern among `seen` that ends at `depth`, if there is one. */
  ghost predicate ResultFor<T>(seen: map<string, T>, depth: nat, result: Option<MaxMunchResult<T>>)
  {
    && (result.Some? <==> exists p :: p in seen && |p| == depth)
    && (result.Some? ==> exists p :: p in seen && |p| == depth && result.value == MaxMunchResult(seen[p], depth))
  }

  /** `childData` groups the patterns among `seen` that go on past `depth` by their next character. */
  ghost predicate ChildrenFor<T>(seen: map<string, T>, depth: nat, childData: map<char, map<string, T>>)
  {
    && childData.Keys == NextChars(seen, depth)
    && forall c :: c in childData ==> childData[c] == Sub(seen, depth, c)
  }

  /** The grouping state after the patterns in `done` have been visited. */
  ghost predicate Grouped<T>(patterns: map<string, T>, done: set<string>, depth: nat,
                             childData: map<char, map<string, T>>, result: Option<MaxMunchResult<T>>)
  {
    var seen := Restrict(patterns, done);
    ResultFor(seen, depth, result) && ChildrenFor(seen, depth, childData)
  }

  lemma {:induction false} RestrictAdd<T>(patterns: map<string, T>, done: set<string>, pattern: string)
    requires pattern in patterns
    ensures Restrict(patterns, done + {pattern}) == Restrict(patterns, done)[pattern := patterns[pattern]]
  {
  }

  lemma {:induction false} SubAdd<T>(seen: map<string, T>, depth: nat, pattern: string, token: T, c: char)
    ensures Sub(seen[pattern := token], depth, c) ==
      if |pattern| > depth && pattern[depth] == c then Sub(seen, depth, c)[pattern := token] else Sub(seen, depth, c)
  {
  }

  lemma {:induction false} NextCharsAdd<T>(seen: map<string, T>, depth: nat, pattern: string, token: T)
    ensures NextChars(seen[pattern := token], depth) ==
      if |pattern| > depth then NextChars(seen, depth) + {pattern[depth]} else NextChars(seen, depth)
  {
    var s' := seen[pattern := token];
    forall c | c in NextChars(s', depth)
      ensures c in NextChars(seen, depth) || (|pattern| > depth && c == pattern[depth])
    {
      var p :| p in s' && |p| > depth && p[depth] == c;
      if p != pattern {
        assert p in seen;
      }
    }
    if |pattern| > depth {
      assert pattern in s';
    }
  }

  /** A pattern ending at `depth` becomes the result (the last one visited wins). */
  lemma {:induction false} ResultAddEnd<T>(seen: map<string, T>, depth: nat, pattern: string, token: T)
    requires |pattern| == depth
    ensures ResultFor(seen[pattern := token], depth, Some(MaxMunchResult(token, depth)))
  {
    assert pattern in seen[pattern := token];
  }

  /** A longer pattern leaves the result as it was. */
  lemma {:induction false} ResultAddLonger<T>(seen: map<string, T>, depth: nat, pattern: string, token: T, result: Option<MaxMunchResult<T>>)
    requires |pattern| > depth && ResultFor(seen, depth, result)
    ensures ResultFor(seen[pattern := token], depth, result)
  {
    var s' := seen[pattern := token];
    assert forall p :: p in s' && |p| == depth ==> p in seen && s'[p] == seen[p];
    if result.Some? {
      var p :| p in seen && |p| == depth && result.value == MaxMunchResult(seen[p], depth);
      assert p in s' && s'[p] == seen[p];
    }
  }

  /** A pattern ending at `depth` leaves the groups as they were. */
  lemma {:induction false} ChildrenAddEnd<T>(seen: map<string, T>, depth: nat, pattern: string, token: T, childData: map<char, map<string, T>>)
    requires |pattern| == depth && ChildrenFor(seen, depth, childData)
    ensures ChildrenFor(seen[pattern := token], depth, childData)
  {
    NextCharsAdd(seen, depth, pattern, token);
    forall c | c in childData
      ensures childData[c] == Sub(seen[pattern := token], depth, c)
    {
      SubAdd(seen, depth, pattern, token, c);
    }
  }

  /** A longer pattern joins the group of its next character, which is created when missing. */
  lemma {:induction false} ChildrenAddLonger<T>(seen: map<string, T>, depth: nat, pattern: string, token: T, childData: map<char, map<string, T>>)
    requires |pattern| > depth && ChildrenFor(seen, depth, childData)
    ensures var c := pattern[depth];
      var group := if c in childData then childData[c] else map[];
      ChildrenFor(seen[pattern := token], depth, childData[c := group[pattern := token]])
  {
    var c := pattern[depth];
    var seen' := seen[pattern := token];
    var group := if c in childData then childData[c] else map[];
    var childData' := childData[c := group[pattern := token]];
    NextCharsAdd(seen, depth, pattern, token);
    assert childData'.Keys == childData.Keys + {c};
    forall d | d in childData'
      ensures childData'[d] == Sub(seen', depth, d)
    {
      SubAdd(seen, depth, pattern, token, d);
      if d == c && c !in childData {
        assert c !in NextChars(seen, depth);
        assert Sub(seen, depth, c) == map[];
      }
    }
  }

  lemma {:induction false} GroupedAll<T>(patterns: map<string, T>, depth: nat, childData: map<char, map<string, T>>,
                      result: Option<MaxMunchResult<T>>, children: map<char, MMNode<T>>)
    requires Grouped(patterns, patterns.Keys, depth, childData, result)
    requires children.Keys == childData.Keys
    requires forall c :: c in children ==> Represents(children[c], Sub(patterns, depth, c), depth + 1)
    ensures Represents(MMNode(children, result), patterns, depth)
  {
    assert Restrict(patterns, patterns.Keys) == patterns;
  }

  /** One iteration of the first loop of newMMNode: records `pattern` at `depth`. */
  method GroupOne<T>(depth: nat, ghost seen: map<string, T>, childData: map<char, map<string, T>>,
                     result: Option<MaxMunchResult<T>>, pattern: string, token: T)
    returns (childData': map<char, map<string, T>>, result': Option<MaxMunchResult<T>>)
    requires |pattern| >= depth
    requires ResultFor(seen, depth, result) && ChildrenFor(seen, depth, childData)
    ensures ResultFor(seen[pattern := token], depth, result') && ChildrenFor(seen[pattern := token], depth, childData')
  {
    if |pattern| == depth {
      ResultAddEnd(seen, depth, pattern, token);
      ChildrenAddEnd(seen, depth, pattern, token, childData);
      childData', result' := childData, Some(MaxMunchResult(token, depth));
    } else {
      var c := pattern[depth];
      ResultAddLonger(seen, depth, pattern, token, result);
      ChildrenAddLonger(seen, depth, pattern, token, childData);
      childData' := childData;
      if c !in childData' {
        childData' := childData'[c := map[]];
      }
      childData', result' := childData'[c := childData'[c][pattern := token]], result;
    }
  }

  /**
   * The first loop of newMMNode: one pass over the patterns, recording the
   * token of a pattern that ends at `depth` and grouping the longer ones
   * by their character at `depth`.
   */
  method GroupPatterns<T>(depth: nat, patterns: map<string, T>)
    returns (childData: map<char, map<string, T>>, result: Option<MaxMunchResult<T>>)
    requires forall p :: p in patterns ==> |p| >= depth
    ensures Grouped(patterns, patterns.Keys, depth, childData, result)
  {
    childData := map[];
    result := None;
    var rest := patterns.Keys;
    assert Restrict(patterns, {}) == map[];
    while rest != {}
      invariant rest <= patterns.Keys
      invariant Grouped(patterns, patterns.Keys - rest, depth, childData, result)
      decreases rest
    {
      var pattern :| pattern in rest;
      RestrictAdd(patterns, patterns.Keys - rest, pattern);
      assert patterns.Keys - (rest - {pattern}) == (patterns.Keys - rest) + {pattern};
      ghost var seen := Restrict(patterns, patterns.Keys - rest);
      childData, result := GroupOne(depth, seen, childData, result, pattern, patterns[pattern]);
      rest := rest - {pattern};
    }
    assert patterns.Keys - rest == patterns.Keys;
  }

  /** Builds the node for `patterns` at `depth` (newMMNode). */
  method NewMMNode<T>(depth: nat, patterns: map<string, T>) returns (n: MMNode<T>)
    requires forall p :: p in patterns ==> |p| >= depth
    ensures Represents(n, patterns, depth)
    decreases Positions(patterns, depth)
  {
    var childData, result := GroupPatterns(depth, patterns);
    assert Restrict(patterns, patterns.Keys) == patterns;
    var children: map<char, MMNode<T>> := map[];
    var heads := childData.Keys;
    while heads != {}
      invariant heads <= childData.Keys
      invariant children.Keys == childData.Keys - heads
      invariant forall c :: c in children ==> Represents(children[c], Sub(patterns, depth, c), depth + 1)
      decreases heads
    {
      var h :| h in heads;
      PositionsShrink(patterns, depth, h);
      var child := NewMMNode(depth + 1, childData[h]);
      children := children[h := child];
      heads := heads - {h};
    }
    GroupedAll(patterns, depth, childData, result, children);
    n := MMNode(children, result);
  }

  /** Builds the trie and the set of first characters (NewMMTrie); Go panics on an empty pattern. */
  method NewMMTrie<T>(patterns: map<string, T>) returns (trie: MaxMunchTrie<T>)
    requires "" !in patterns
    ensures Represents(trie.root, patterns, 0)
    ensures forall c :: c in trie.firstByte <==> exists p :: p in patterns && p[0] == c
  {
    var firstBytes: set<char> := {};
    var rest := patterns.Keys;
    while rest != {}
      invariant rest <= patterns.Keys
      invariant forall c :: c in firstBytes <==> exists p :: p in patterns && p !in rest && p[0] == c
      decreases rest
    {
      var pattern :| pattern in rest;
      firstBytes := firstBytes + {pattern[0]};
      rest := rest - {pattern};
    }
    var root := NewMMNode(0, patterns);
    trie := MaxMunchTrie(root, firstBytes);
  }

  /** The node reached from `n` by following `s`, if every step has a child. */
  function Descend<T>(n: MMNode<T>, s: string): Option<MMNode<T>>
    decreases |s|
  {
    if s == [] then Some(n)
    else if s[0] in n.children then Descend(n.children[s[0]], s[1..])
    else None
  }

  lemma {:induction false} DescendAppend<T>(n: MMNode<T>, s: string, c: char)
    requires Descend(n, s).Some?
    ensures Descend(n, s + [c]) ==
      (var m := Descend(n, s).value; if c in m.children then Some(m.children[c]) else None)
    decreases |s|
  {
    if s != [] {
      assert (s + [c])[0] == s[0] && (s + [c])[1..] == s[1..] + [c];
      DescendAppend(n.children[s[0]], s[1..], c);
    }
  }

  /** Some pattern starts with `s`. */
  ghost predicate PrefixOfSome<T>(patterns: map<string, T>, s: string)
  {
    exists p :: p in patterns && s <= p
  }

  /** All patterns start with `pre`. */
  ghost predicate SharePrefix<T>(patterns: map<string, T>, pre: string)
  {
    forall p :: p in patterns ==> |p| >= |pre| && p[..|pre|] == pre
  }

  lemma {:induction false} NodeResult<T>(n: MMNode<T>, patterns: map<string, T>, pre: string)
    requires Represents(n, patterns, |pre|) && SharePrefix(patterns, pre)
    ensures n.result == if pre in patterns then Some(MaxMunchResult(patterns[pre], |pre|)) else None
  {
    if n.Terminal() {
      var p :| p in patterns && |p| == |pre| && n.result.value == MaxMunchResult(patterns[p], |pre|);
      assert p == p[..|pre|] == pre;
    }
  }

  lemma {:induction false} SubPrefix<T>(patterns: map<string, T>, pre: string, c: char, t: string)
    requires SharePrefix(patterns, pre)
    ensures SharePrefix(Sub(patterns, |pre|, c), pre + [c])
    ensures PrefixOfSome(patterns, pre + [c] + t) <==> PrefixOfSome(Sub(patterns, |pre|, c), pre + [c] + t)
    ensures pre + [c] + t in patterns <==> pre + [c] + t in Sub(patterns, |pre|, c)
  {
    var d := |pre|;
    var sub := Sub(patterns, d, c);
    forall p | p in sub
      ensures |p| >= d + 1 && p[..d + 1] == pre + [c]
    {
      assert p[..d + 1] == p[..d] + [p[d]];
    }
    if PrefixOfSome(patterns, pre + [c] + t) {
      var p :| p in patterns && pre + [c] + t <= p;
      assert p[d] == c;
      assert p in sub;
    }
    assert (pre + [c] + t)[d] == c;
  }

  lemma {:induction false} NoChild<T>(n: MMNode<T>, patterns: map<string, T>, pre: string, c: char, t: string)
    requires Represents(n, patterns, |pre|) && SharePrefix(patterns, pre)
    requires c !in n.children
    ensures !PrefixOfSome(patterns, pre + [c] + t)
  {
    forall p | p in patterns && pre + [c] + t <= p
      ensures p[|pre|] in NextChars(patterns, |pre|)
    {
    }
  }

  /**
   * Following `s` from a node built for patterns sharing the prefix `pre`
   * succeeds exactly when some pattern starts with `pre + s`, and lands on
   * a node that is terminal exactly when `pre + s` is itself a pattern.
   */
  lemma {:induction false} DescendRepresents<T>(n: MMNode<T>, patterns: map<string, T>, pre: string, s: string)
    requires Represents(n, patterns, |pre|) && SharePrefix(patterns, pre)
    ensures Descend(n, s).Some? <==> s == [] || PrefixOfSome(patterns, pre + s)
    ensures Descend(n, s).Some? ==>
      Descend(n, s).value.result ==
        (if pre + s in patterns then Some(MaxMunchResult(patterns[pre + s], |pre + s|)) else None)
    decreases |s|, 1
  {
    if s == [] {
      assert pre + s == pre;
      NodeResult(n, patterns, pre);
    } else if s[0] in n.children {
      DescendChild(n, patterns, pre, s);
    } else {
      assert pre + s == pre + [s[0]] + s[1..];
      NoChild(n, patterns, pre, s[0], s[1..]);
    }
  }

  /** A character some pattern has after the shared prefix extends the prefix to one that starts a pattern. */
  lemma {:induction false} ChildStartsSome<T>(patterns: map<string, T>, pre: string, c: char)
    requires SharePrefix(patterns, pre) && c in NextChars(patterns, |pre|)
    ensures PrefixOfSome(patterns, pre + [c])
  {
    var p :| p in patterns && |p| > |pre| && p[|pre|] == c;
    assert p[..|pre| + 1] == p[..|pre|] + [c];
  }

  /** The step of DescendRepresents through the child for the first character of `s`. */
  lemma {:induction false} DescendChild<T>(n: MMNode<T>, patterns: map<string, T>, pre: string, s: string)
    requires Represents(n, patterns, |pre|) && SharePrefix(patterns, pre)
    requires s != [] && s[0] in n.children
    ensures Descend(n, s).Some? <==> PrefixOfSome(patterns, pre + s)
    ensures Descend(n, s).Some? ==>
      Descend(n, s).value.result ==
        (if pre + s in patterns then Some(MaxMunchResult(patterns[pre + s], |pre + s|)) else None)
    decreases |s|, 0
  {
    var c, t := s[0], s[1..];
    var sub := Sub(patterns, |pre|, c);
    assert pre + s == pre + [c] + t;
    SubPrefix(patterns, pre, c, t);
    DescendRepresents(n.children[c], sub, pre + [c], t);
    assert Descend(n, s) == Descend(n.children[c], t);
    if t == [] {
      ChildStartsSome(patterns, pre, c);
    }
    if pre + s in patterns {
      assert sub[pre + s] == patterns[pre + s];
    }
  }

  /** The suffix of `data` from `start` on, empty when `start` is past the end. */
  function Suffix(data: string, start: nat): string
  {
    if start <= |data| then data[start..] else []
  }

  /** How far along `rest` the walk gets: the longest prefix of it that starts some pattern. */
  ghost function Walked<T>(patterns: map<string, T>, rest: string, i: nat): (w: nat)
    requires i <= |rest|
    ensures i <= w <= |rest|
    decreases |rest| - i
  {
    if i < |rest| && PrefixOfSome(patterns, rest[..i + 1]) then Walked(patterns, rest, i + 1) else i
  }

  /** What the lookup answers for the input: the walked prefix if it is a pattern. */
  ghost function LookupSpec<T>(patterns: map<string, T>, data: string, start: nat): Option<MaxMunchResult<T>>
  {
    var rest := Suffix(data, start);
    var w := rest[..Walked(patterns, rest, 0)];
    if w in patterns then Some(MaxMunchResult(patterns[w], |w|)) else None
  }

  /** One step of the walk: the child for the next character exists exactly when the longer prefix starts a pattern. */
  lemma {:induction false} WalkStep<T>(root: MMNode<T>, patterns: map<string, T>, rest: string, k: nat, head: MMNode<T>)
    requires Represents(root, patterns, 0)
    requires k < |rest| && Descend(root, rest[..k]) == Some(head)
    ensures rest[k] in head.children <==> PrefixOfSome(patterns, rest[..k + 1])
    ensures rest[k] in head.children ==> Descend(root, rest[..k + 1]) == Some(head.children[rest[k]])
  {
    assert rest[..k + 1] == rest[..k] + [rest[k]];
    DescendAppend(root, rest[..k], rest[k]);
    DescendRepresents(root, patterns, [], rest[..k + 1]);
    assert [] + rest[..k + 1] == rest[..k + 1];
  }

  /** The walk ends on the node for the walked prefix, whose result is the lookup's answer. */
  lemma {:induction false} WalkEnd<T>(root: MMNode<T>, patterns: map<string, T>, data: string, start: nat, head: MMNode<T>)
    requires Represents(root, patterns, 0)
    requires var rest := Suffix(data, start); Descend(root, rest[..Walked(patterns, rest, 0)]) == Some(head)
    ensures head.result == LookupSpec(patterns, data, start)
  {
    var rest := Suffix(data, start);
    var w := rest[..Walked(patterns, rest, 0)];
    DescendRepresents(root, patterns, [], w);
    assert [] + w == w;
  }

  /** The walk itself: follow the children while the next character has one, then answer that node's result. */
  function Walk<T>(n: MMNode<T>, rest: string): Option<MaxMunchResult<T>>
    decreases |rest|
  {
    if rest != [] && rest[0] in n.children then Walk(n.children[rest[0]], rest[1..]) else n.result
  }

  /** From a node the walk has reached, walking on ends where the walk from the root ends. */
  lemma {:induction false} WalkFrom<T>(root: MMNode<T>, patterns: map<string, T>, rest: string, k: nat, head: MMNode<T>)
    requires Represents(root, patterns, 0)
    requires k <= |rest| && Descend(root, rest[..k]) == Some(head)
    requires Walked(patterns, rest, k) == Walked(patterns, rest, 0)
    ensures Descend(root, rest[..Walked(patterns, rest, 0)]).Some?
    ensures Walk(head, rest[k..]) == Descend(root, rest[..Walked(patterns, rest, 0)]).value.result
    decreases |rest| - k
  {
    if k < |rest| {
      WalkStep(root, patterns, rest, k, head);
      if rest[k] in head.children {
        assert rest[k..][1..] == rest[k + 1..];
        WalkFrom(root, patterns, rest, k + 1, head.children[rest[k]]);
      }
    }
  }

  /** On a trie built for `patterns`, the walk answers the lookup. */
  lemma {:induction false} WalkLookup<T>(root: MMNode<T>, patterns: map<string, T>, data: string, start: nat)
    requires Represents(root, patterns, 0)
    ensures Walk(root, Suffix(data, start)) == LookupSpec(patterns, data, start)
  {
    var rest := Suffix(data, start);
    assert rest[..0] == [] && rest[0..] == rest;
    WalkFrom(root, patterns, rest, 0, root);
    var head := Descend(root, rest[..Walked(patterns, rest, 0)]).value;
    WalkEnd(root, patterns, data, start, head);
  }

  /**
   * LargestPrefix: walk from `startFrom` while the current node has a child
   * for the next character, then answer the stopping node's result. Go
   * panics on a negative start.
   */
  method LargestPrefix<T>(trie: MaxMunchTrie<T>, data: string, startFrom: int)
    returns (r: Option<MaxMunchResult<T>>)
    requires startFrom >= 0
    ensures r == Walk(trie.root, Suffix(data, startFrom))
  {
    var head := trie.root;
    var i := startFrom;
    while i < |data|
      invariant startFrom <= i <= |data| || (i == startFrom && Suffix(data, startFrom) == [])
      invariant Walk(head, Suffix(data, i)) == Walk(trie.root, Suffix(data, startFrom))
      decreases |data| - i
    {
      assert Suffix(data, i)[1..] == Suffix(data, i + 1);
      if data[i] in head.children {
        head := head.children[data[i]];
      } else {
        break;
      }
      i := i + 1;
    }
    r := head.result;
  }

  lemma {:induction false} WalkedFacts<T>(patterns: map<string, T>, rest: string, i: nat)
    requires i <= |rest|
    requires i == 0 || PrefixOfSome(patterns, rest[..i])
    ensures var w := Walked(patterns, rest, i);
      && (w == 0 || PrefixOfSome(patterns, rest[..w]))
      && (w == |rest| || !PrefixOfSome(patterns, rest[..w + 1]))
    decreases |rest| - i
  {
    if i < |rest| && PrefixOfSome(patterns, rest[..i + 1]) {
      WalkedFacts(patterns, rest, i + 1);
    }
  }

  /** A match found is a pattern at the start position, with that pattern's token and length. */
  lemma {:induction false} LookupSound<T>(patterns: map<string, T>, data: string, start: nat)
    requires LookupSpec(patterns, data, start).Some?
    ensures var m := LookupSpec(patterns, data, start).value;
      var rest := Suffix(data, start);
      && m.length <= |rest|
      && rest[..m.length] in patterns
      && m.token == patterns[rest[..m.length]]
  {
  }

  /** Maximal munch: no pattern longer than the match is also a prefix of the input. */
  lemma {:induction false} LookupLongest<T>(patterns: map<string, T>, data: string, start: nat, p: string)
    requires LookupSpec(patterns, data, start).Some?
    requires p in patterns && p <= Suffix(data, start)
    ensures |p| <= LookupSpec(patterns, data, start).value.length
  {
    var rest := Suffix(data, start);
    var k := Walked(patterns, rest, 0);
    WalkedFacts(patterns, rest, 0);
  }

  /** The patterns of the trie test table, with tokens 'A'..'D'. */
  function TestPatterns(): map<string, char>
  {
    map["a" := 'A', "aab" := 'B', "aba" := 'C', "b" := 'D']
  }

  /** `s` starts no test pattern: it is longer than the pattern or differs from it at some position. */
  lemma {:induction false} NotTestPrefix(s: string)
    requires forall p :: p in TestPatterns() ==> |s| > |p| || exists i :: 0 <= i < |s| && i < |p| && s[i] != p[i]
    ensures !PrefixOfSome(TestPatterns(), s)
  {
  }

  /** Table case: "aabrah" from 0 gives B with length 3. */
  lemma {:induction false} LookupTestLongest()
    ensures LookupSpec(TestPatterns(), "aabrah", 0) == Some(MaxMunchResult('B', 3))
  {
    var P, r := TestPatterns(), "aabrah";
    assert "aab" in P && r[..1] <= "aab" && r[..2] <= "aab" && r[..3] <= "aab";
    assert r[..4][3] == 'r';
    NotTestPrefix(r[..4]);
    assert Walked(P, r, 0) == 3;
    assert r[..3] == "aab";
  }

  /** Table case: "xxxababrah" from 3 gives C with length 3. */
  lemma {:induction false} LookupTestOffset()
    ensures LookupSpec(TestPatterns(), "xxxababrah", 3) == Some(MaxMunchResult('C', 3))
  {
    var P, r := TestPatterns(), "ababrah";
    assert Suffix("xxxababrah", 3) == r;
    assert "aba" in P && r[..1] <= "aba" && r[..2] <= "aba" && r[..3] <= "aba";
    assert r[..4][1] == 'b' && r[..4][3] == 'b';
    NotTestPrefix(r[..4]);
    assert Walked(P, r, 0) == 3;
    assert r[..3] == "aba";
  }

  /** Table case: "baabrah" from 0 gives D with length 1. */
  lemma {:induction false} LookupTestShort()
    ensures LookupSpec(TestPatterns(), "baabrah", 0) == Some(MaxMunchResult('D', 1))
  {
    var P, r := TestPatterns(), "baabrah";
    assert "b" in P && r[..1] <= "b";
    assert r[..2][0] == 'b' && r[..2][1] == 'a';
    NotTestPrefix(r[..2]);
    assert Walked(P, r, 0) == 1;
    assert r[..1] == "b";
  }

  /** Table cases: "cd" from 0 and "xxx" from 3 give nothing. */
  lemma {:induction false} LookupTestNone()
    ensures LookupSpec(TestPatterns(), "cd", 0) == None
    ensures LookupSpec(TestPatterns(), "xxx", 3) == None
  {
    assert "cd"[..1][0] == 'c';
    NotTestPrefix("cd"[..1]);
    assert Walked(TestPatterns(), "cd", 0) == 0;
    assert Suffix("xxx", 3) == [];
  }

  /**
   * The walk never backs off: on "aa" it reaches the node for "aa" (a
   * prefix of "aab"), which is not terminal, so nothing is found even
   * though the pattern "a" is a prefix of the input.
   */
  lemma {:induction false} NoBackOff()
    ensures "a" in TestPatterns() && "a" <= "aa"
    ensures LookupSpec(TestPatterns(), "aa", 0) == None
  {
    var P := TestPatterns();
    var r := "aa";
    assert "aab" in P && r[..1] <= "aab" && r[..2] <= "aab";
    assert r[..2] == r;
  }

  /** With no empty pattern, the first characters are exactly the root's children. */
  lemma {:induction false} FirstByteIsRootChildren<T>(trie: MaxMunchTrie<T>, patterns: map<string, T>)
    requires "" !in patterns
    requires Represents(trie.root, patterns, 0)
    requires forall c :: c in trie.firstByte <==> exists p :: p in patterns && p[0] == c
    ensures trie.firstByte == trie.root.children.Keys
  {
    forall c | c in trie.root.children
      ensures c in trie.firstByte
    {
      var p :| p in patterns && |p| > 0 && p[0] == c;
    }
    forall c | c in trie.firstByte
      ensures c in trie.root.children
    {
      var p :| p in patterns && p[0] == c;
      assert |p| > 0;
    }
  }
}
