/**
 * The lexer's tables (src/frontend/lexer_constants.py): the operator
 * patterns with and without the arithmetic operators, their tries, the
 * keywords and the unit suffixes.
 */
module LexerConstants {
  import opened Wrappers
  import opened MaxMunch

  /** The operators matched in every context. */
  const NON_ARITHMETIC_OPERATORS: map<string, string> := map[
    "..." := "ELLIPSIS", ":=" := "DECLARE",
    "+=" := "PLUS_ASSIGN", "-=" := "MINUS_ASSIGN", "*=" := "TIMES_ASSIGN", "/=" := "DIVIDE_ASSIGN",
    "%=" := "MOD_ASSIGN", "**=" := "POWER_ASSIGN", "//=" := "INT_DIV_ASSIGN", "++=" := "CONCAT_ASSIGN",
    "|=" := "PIPE_ASSIGN", "&&=" := "SEQ_AND_ASSIGN", "||=" := "SEQ_OR_ASSIGN",
    ">>" := "APPEND_FILE", "\\" := "LAMBDA", "->" := "ARROW", "&&" := "SEQ_AND", "||" := "SEQ_OR",
    "::" := "NAMESPACE", "==" := "EQUALS", "!=" := "NOT_EQUALS", ">=" := "GTE", "<=" := "LTE",
    ".." := "RANGE", "++" := "CONCAT", ":" := "COLON", "=" := "ASSIGN", "|" := "PIPE", "," := "COMMA",
    "(" := "PAREN_OPEN", ")" := "PAREN_CLOSE", "{" := "CURLY_OPEN", "}" := "CURLY_CLOSE",
    "<" := "ANGLE_OPEN", ">" := "ANGLE_CLOSE", "[" := "SQUARE_OPEN", "]" := "SQUARE_CLOSE",
    ";" := "SEMICOLON", "$" := "CURRY", "!" := "NOT", "~" := "ASYNC"
  ]

  /** The arithmetic operators, added on top of the others where arithmetic is allowed. */
  const ARITHMETIC_OPERATORS: map<string, string> := map[
    "**" := "POWER", "//" := "INT_DIV", "*" := "TIMES", "/" := "DIVIDE",
    "+" := "PLUS", "-" := "MINUS", "%" := "MOD"
  ]

  const ALL_OPERATORS: map<string, string> := NON_ARITHMETIC_OPERATORS + ARITHMETIC_OPERATORS

  /** KEYWORDS.get(word): the token of a keyword, None for any other word. */
  function KeywordToken(word: string): Option<string>
  {
    match word
    case "assert" => Some("ASSERT") case "fn" => Some("FN") case "for" => Some("FOR")
    case "while" => Some("WHILE") case "loop" => Some("ALWAYS_LOOP") case "continue" => Some("CONTINUE")
    case "break" => Some("BREAK") case "true" => Some("TRUE") case "false" => Some("FALSE")
    case "and" => Some("AND") case "or" => Some("OR") case "xor" => Some("XOR") case "not" => Some("NOT")
    case "return" => Some("RETURN") case "ret" => Some("RETURN") case "if" => Some("IF")
    case "do" => Some("DO") case "in" => Some("IN") case "import" => Some("IMPORT")
    case "else" => Some("ELSE") case "elif" => Some("ELIF") case "try" => Some("TRY")
    case "catch" => Some("CATCH") case "as" => Some("AS") case "var" => Some("VAR")
    case "const" => Some("CONST") case "class" => Some("CLASS") case "with" => Some("WITH")
    case "by" => Some("BY") case "say" => Some("SAY")
    case _ => None
  }

  /** UNITS.get(suffix): the kind of a unit suffix, None for any other suffix. */
  function UnitKind(suffix: string): Option<string>
  {
    match suffix
    case "b" => Some("size") case "kb" => Some("size") case "mb" => Some("size") case "gb" => Some("size")
    case "tb" => Some("size") case "pb" => Some("size") case "kib" => Some("size") case "mib" => Some("size")
    case "gib" => Some("size") case "tib" => Some("size") case "pib" => Some("size")
    case "ns" => Some("time") case "us" => Some("time") case "ms" => Some("time") case "sec" => Some("time")
    case "min" => Some("time") case "hr" => Some("time") case "day" => Some("time") case "wk" => Some("time")
    case _ => None
  }

  /** Membership in the merged table is membership in either part. */
  lemma {:induction false} AllOperatorsKeys()
    ensures forall p :: p in ALL_OPERATORS <==> p in NON_ARITHMETIC_OPERATORS || p in ARITHMETIC_OPERATORS
  {
  }

  lemma {:induction false} NonArithmeticLengths()
    ensures forall p :: p in NON_ARITHMETIC_OPERATORS ==> 1 <= |p| <= 3
  {
  }

  lemma {:induction false} NonArithmeticDots()
    ensures forall p :: p in NON_ARITHMETIC_OPERATORS && 2 <= |p| && p[0] == '.' && p[1] == '.' ==> p == ".." || p == "..."
  {
  }

  lemma {:induction false} DotsNonArithmetic()
    ensures ".." in NON_ARITHMETIC_OPERATORS && "..." in NON_ARITHMETIC_OPERATORS
  {
  }

  lemma {:induction false} ArithmeticShape()
    ensures forall p :: p in ARITHMETIC_OPERATORS ==> 1 <= |p| <= 2 && p[0] != '.'
  {
  }

  lemma {:induction false} NonArithmeticSingles()
    ensures forall p :: p in NON_ARITHMETIC_OPERATORS && |p| == 1 ==> p[0] !in "*/+-%"
  {
  }

  lemma {:induction false} NonArithmeticDoubles()
    ensures forall p :: p in NON_ARITHMETIC_OPERATORS && |p| == 2 ==> p != "**" && p != "//"
  {
  }

  /** An arithmetic operator is not among the non-arithmetic ones. */
  lemma {:induction false} NotNonArithmetic(q: string)
    requires (|q| == 1 && q[0] in "*/+-%") || q == "**" || q == "//"
    ensures q !in NON_ARITHMETIC_OPERATORS
  {
    NonArithmeticSingles();
    NonArithmeticDoubles();
  }

  lemma {:induction false} ArithmeticDisjoint()
    ensures forall p :: p in ARITHMETIC_OPERATORS ==> p !in NON_ARITHMETIC_OPERATORS
  {
    forall p | p in ARITHMETIC_OPERATORS
      ensures p !in NON_ARITHMETIC_OPERATORS
    {
      NotNonArithmetic(p);
    }
  }

  /** The two operator tries the lexer chooses between. */
  datatype OperatorTries = OperatorTries(nonArithmetic: MaxMunchTrie<string>, all: MaxMunchTrie<string>)

  /** The tries stand for their tables, and first characters are those of all operators. */
  ghost predicate ValidTries(t: OperatorTries)
  {
    && Represents(t.nonArithmetic.root, NON_ARITHMETIC_OPERATORS, 0)
    && Represents(t.all.root, ALL_OPERATORS, 0)
    && forall c :: c in t.all.firstByte <==> exists p :: p in ALL_OPERATORS && |p| > 0 && p[0] == c
  }

  /** The dot operators of a table: `..` and `...`, and no other operator starts with two dots. */
  ghost predicate DotShape(table: map<string, string>)
  {
    && ".." in table && "..." in table
    && forall p :: p in table && 2 <= |p| && p[0] == '.' && p[1] == '.' ==> p == ".." || p == "..."
  }

  /**
   * What the lexer relies on about a pair of tries: they stand for the
   * tables `nonArithmetic` and `all`, whose operators are non-empty and
   * the same at every two-dot prefix, and the first characters are those
   * of `all`.
   */
  ghost predicate TriesFor(t: OperatorTries, nonArithmetic: map<string, string>, all: map<string, string>)
  {
    && Represents(t.nonArithmetic.root, nonArithmetic, 0)
    && Represents(t.all.root, all, 0)
    && (forall c :: c in t.all.firstByte <==> exists p :: p in all && |p| > 0 && p[0] == c)
    && (forall p :: p in nonArithmetic ==> |p| >= 1)
    && (forall p :: p in all ==> |p| >= 1)
    && DotShape(nonArithmetic) && DotShape(all)
  }

  lemma {:induction false} ConstantTries(t: OperatorTries)
    requires ValidTries(t)
    ensures TriesFor(t, NON_ARITHMETIC_OPERATORS, ALL_OPERATORS)
  {
    NonArithmeticLengths();
    ArithmeticShape();
    AllOperatorsKeys();
    NonArithmeticDots();
    DotsNonArithmetic();
    DotOperators();
  }

  /** Builds non_arithmetic_ps_trie and all_operators_trie, as the module does when imported. */
  method BuildOperatorTries() returns (t: OperatorTries)
    ensures ValidTries(t)
  {
    NonArithmeticLengths();
    ArithmeticShape();
    AllOperatorsKeys();
    var nonArithmetic := NewMMTrie(NON_ARITHMETIC_OPERATORS);
    var all := NewMMTrie(ALL_OPERATORS);
    t := OperatorTries(nonArithmetic, all);
  }

  lemma {:induction false} ArithmeticKeys()
    ensures ARITHMETIC_OPERATORS.Keys == {"**", "//", "*", "/", "+", "-", "%"}
  {
  }

  /** The non-arithmetic operators are among all operators, and the difference is exactly the arithmetic ones. */
  lemma {:induction false} NonArithmeticSubset()
    ensures NON_ARITHMETIC_OPERATORS.Keys <= ALL_OPERATORS.Keys
    ensures forall p :: p in NON_ARITHMETIC_OPERATORS ==> ALL_OPERATORS[p] == NON_ARITHMETIC_OPERATORS[p]
    ensures ALL_OPERATORS.Keys - NON_ARITHMETIC_OPERATORS.Keys == {"**", "//", "*", "/", "+", "-", "%"}
  {
    ArithmeticDisjoint();
    var n, a := NON_ARITHMETIC_OPERATORS, ARITHMETIC_OPERATORS;
    assert ALL_OPERATORS.Keys == n.Keys + a.Keys;
    assert forall p :: p in n ==> p !in a;
    assert (n.Keys + a.Keys) - n.Keys == a.Keys;
    ArithmeticKeys();
  }

  lemma {:induction false} PowerTokens()
    ensures "**" in ARITHMETIC_OPERATORS && ARITHMETIC_OPERATORS["**"] == "POWER"
    ensures "*" in ARITHMETIC_OPERATORS && ARITHMETIC_OPERATORS["*"] == "TIMES"
    ensures "**=" !in ARITHMETIC_OPERATORS
  {
  }

  lemma {:induction false} PowerAssignToken()
    ensures "**=" in NON_ARITHMETIC_OPERATORS && NON_ARITHMETIC_OPERATORS["**="] == "POWER_ASSIGN"
  {
  }

  /** `**=`, `**` and `*` are all operators, with three distinct token names. */
  lemma {:induction false} PowerOperatorsDistinct()
    ensures "**=" in ALL_OPERATORS && "**" in ALL_OPERATORS && "*" in ALL_OPERATORS
    ensures ALL_OPERATORS["**="] != ALL_OPERATORS["**"] && ALL_OPERATORS["**"] != ALL_OPERATORS["*"]
    ensures ALL_OPERATORS["*"] != ALL_OPERATORS["**="]
  {
    PowerTokens();
    PowerAssignToken();
    var n, a := NON_ARITHMETIC_OPERATORS, ARITHMETIC_OPERATORS;
    assert ALL_OPERATORS == n + a;
    assert (n + a)["**="] == n["**="] && (n + a)["**"] == a["**"] && (n + a)["*"] == a["*"];
  }

  /** Every unit is a size or a time unit. */
  lemma {:induction false} UnitKinds()
    ensures forall u :: UnitKind(u).Some? ==> UnitKind(u).value == "size" || UnitKind(u).value == "time"
  {
  }

  /** `ret` and `return` are the same keyword. */
  lemma {:induction false} ReturnKeywords()
    ensures KeywordToken("ret") == KeywordToken("return") == Some("RETURN")
  {
  }

  /** No operator is empty or longer than three characters. */
  lemma {:induction false} OperatorLengths()
    ensures forall p :: p in ALL_OPERATORS ==> 1 <= |p| <= 3
  {
    AllOperatorsKeys();
    NonArithmeticLengths();
    ArithmeticShape();
  }

  /** In both tables, the only operators that start with two dots are `..` and `...`. */
  lemma {:induction false} DotOperators()
    ensures forall p :: p in ALL_OPERATORS && 2 <= |p| && p[0] == '.' && p[1] == '.' ==> p == ".." || p == "..."
    ensures ".." in ALL_OPERATORS && "..." in ALL_OPERATORS
  {
    AllOperatorsKeys();
    NonArithmeticDots();
    ArithmeticShape();
    DotsNonArithmetic();
  }
}
