/** The parse tree of a High-LOGO program, as the parser hands it to the
    translator: rule nodes with an ordered sequence of children, and the
    named terminals kept as token leaves (anonymous string literals such as
    the parentheses of `boolean_expression` are not kept).

    The layout predicates below follow the grammar rules of hlogoc_JM.py,
    one predicate per rule, so that the generator's fixed child positions
    (`children[5]`, `children[7].children[2]`, ...) can be justified. */
module SyntaxTree {

  /** The rules of the grammar, naming the rule nodes of the tree. */
  datatype Rule =
    | Start | BasicInstruction | FunctionDef | FunctionCall | ParamList | ArgList
    | Expression | Conditional | SingleFor | DoubleFor | RangeExpr | RangeArgs
    | BooleanExpression | BooleanTerm | Comparison | Block | MoveInstruction

  /** The named terminals of the grammar, naming the tokens of the tree. */
  datatype Terminal =
    | DEF | NAME | SINGLE_FOR | DOUBLE_FOR | VAR | IN | ZIP | RANGE
    | LPAREN | RPAREN | COMMA | IF | ELSE | LBRACE | RBRACE
    | MOVEMENT | PEN | COMPARATOR | NOT | AND | OR | INTNUM

  /** A parse-tree node: a rule node named by `data`, or a token whose
      `kind` is its terminal and whose `value` is its text. */
  datatype Node =
    | Tree(data: Rule, children: seq<Node>)
    | Token(kind: Terminal, value: string)

  predicate IsTree(n: Node, rule: Rule) { n.Tree? && n.data == rule }

  predicate IsToken(n: Node, kind: Terminal) { n.Token? && n.kind == kind }

  // ---------------------------------------------------------------------
  // Lexemes the grammar's terminals accept
  // ---------------------------------------------------------------------

  const MovementWords: set<string> := {"FD", "BK", "LT", "RT", "WIDTH"}
  const PenWords: set<string> := {"PU", "PD"}
  const Comparators: set<string> := {"==", "!=", "<", ">", "<=", ">="}

  /** A token the lexer can produce. The texts of NAME, VAR and INTNUM are
      not constrained: the translator only copies them. */
  predicate LexemeOk(kind: Terminal, value: string)
  {
    match kind
    case DEF => value == "def"
    case SINGLE_FOR => value == "for"
    case DOUBLE_FOR => value == "for"
    case IN => value == "in"
    case ZIP => value == "zip"
    case RANGE => value == "range"
    case LPAREN => value == "("
    case RPAREN => value == ")"
    case COMMA => value == ","
    case IF => value == "if"
    case ELSE => value == "else"
    case LBRACE => value == "{"
    case RBRACE => value == "}"
    case NOT => value == "!"
    case AND => value == "&&"
    case OR => value == "||"
    case MOVEMENT => value in MovementWords
    case PEN => value in PenWords
    case COMPARATOR => value in Comparators
    case NAME => true
    case VAR => true
    case INTNUM => true
  }

  // ---------------------------------------------------------------------
  // Child layouts, one per grammar rule
  // ---------------------------------------------------------------------

  /** The layout the grammar gives to the children of a `rule` node, one
      case per grammar rule. */
  predicate RuleLayout(rule: Rule, cs: seq<Node>)
  {
    match rule
    // start: (basic_instruction | function_def)+
    case Start =>
      |cs| >= 1 &&
      forall c <- cs :: IsTree(c, BasicInstruction) || IsTree(c, FunctionDef)
    // basic_instruction: move_instruction | PEN | conditional | single_for | double_for | function_call
    case BasicInstruction =>
      |cs| == 1 &&
      (IsTree(cs[0], MoveInstruction) || IsToken(cs[0], PEN) ||
       IsTree(cs[0], Conditional) || IsTree(cs[0], SingleFor) ||
       IsTree(cs[0], DoubleFor) || IsTree(cs[0], FunctionCall))
    // function_def: DEF NAME LPAREN param_list? RPAREN block
    case FunctionDef =>
      (|cs| == 5 || |cs| == 6) &&
      IsToken(cs[0], DEF) && IsToken(cs[1], NAME) && IsToken(cs[2], LPAREN) &&
      (|cs| == 6 ==> IsTree(cs[3], ParamList)) &&
      IsToken(cs[|cs| - 2], RPAREN) && IsTree(cs[|cs| - 1], Block)
    // function_call: NAME LPAREN arg_list? RPAREN
    case FunctionCall =>
      (|cs| == 3 || |cs| == 4) &&
      IsToken(cs[0], NAME) && IsToken(cs[1], LPAREN) &&
      (|cs| == 4 ==> IsTree(cs[2], ArgList)) &&
      IsToken(cs[|cs| - 1], RPAREN)
    // param_list: NAME (COMMA expression)*
    case ParamList =>
      |cs| % 2 == 1 && IsToken(cs[0], NAME) &&
      forall i :: 1 <= i < |cs| ==>
        if i % 2 == 1 then IsToken(cs[i], COMMA) else IsTree(cs[i], Expression)
    // arg_list: expression (COMMA expression)*
    case ArgList =>
      |cs| % 2 == 1 &&
      forall i :: 0 <= i < |cs| ==>
        if i % 2 == 0 then IsTree(cs[i], Expression) else IsToken(cs[i], COMMA)
    // expression: INTNUM | NAME
    case Expression =>
      |cs| == 1 && (IsToken(cs[0], INTNUM) || IsToken(cs[0], NAME))
    // conditional: IF boolean_expression block (ELSE block)?
    case Conditional =>
      (|cs| == 3 || |cs| == 5) &&
      IsToken(cs[0], IF) && IsTree(cs[1], BooleanExpression) && IsTree(cs[2], Block) &&
      (|cs| == 5 ==> IsToken(cs[3], ELSE) && IsTree(cs[4], Block))
    // single_for: SINGLE_FOR VAR IN RANGE LPAREN range_args RPAREN block
    case SingleFor =>
      |cs| == 8 &&
      IsToken(cs[0], SINGLE_FOR) && IsToken(cs[1], VAR) && IsToken(cs[2], IN) &&
      IsToken(cs[3], RANGE) && IsToken(cs[4], LPAREN) && IsTree(cs[5], RangeArgs) &&
      IsToken(cs[6], RPAREN) && IsTree(cs[7], Block)
    // double_for: DOUBLE_FOR VAR COMMA VAR IN ZIP LPAREN range_expr COMMA range_expr RPAREN block
    case DoubleFor =>
      |cs| == 12 &&
      IsToken(cs[0], DOUBLE_FOR) && IsToken(cs[1], VAR) && IsToken(cs[2], COMMA) &&
      IsToken(cs[3], VAR) && IsToken(cs[4], IN) && IsToken(cs[5], ZIP) &&
      IsToken(cs[6], LPAREN) && IsTree(cs[7], RangeExpr) && IsToken(cs[8], COMMA) &&
      IsTree(cs[9], RangeExpr) && IsToken(cs[10], RPAREN) && IsTree(cs[11], Block)
    // range_expr: RANGE LPAREN range_args RPAREN
    case RangeExpr =>
      |cs| == 4 &&
      IsToken(cs[0], RANGE) && IsToken(cs[1], LPAREN) &&
      IsTree(cs[2], RangeArgs) && IsToken(cs[3], RPAREN)
    // range_args: INTNUM COMMA INTNUM COMMA INTNUM | INTNUM COMMA INTNUM | INTNUM
    case RangeArgs =>
      (|cs| == 1 || |cs| == 3 || |cs| == 5) &&
      forall i :: 0 <= i < |cs| ==>
        if i % 2 == 0 then IsToken(cs[i], INTNUM) else IsToken(cs[i], COMMA)
    // boolean_expression: "(" boolean_term ")" -- the parentheses are anonymous and dropped from the tree
    case BooleanExpression =>
      |cs| == 1 && IsTree(cs[0], BooleanTerm)
    // boolean_term: comparison | NOT boolean_term | boolean_term AND boolean_term | boolean_term OR boolean_term | "(" boolean_term ")"
    case BooleanTerm =>
      (|cs| == 1 && (IsTree(cs[0], Comparison) || IsTree(cs[0], BooleanTerm))) ||
      (|cs| == 2 && IsToken(cs[0], NOT) && IsTree(cs[1], BooleanTerm)) ||
      (|cs| == 3 && IsTree(cs[0], BooleanTerm) &&
       (IsToken(cs[1], AND) || IsToken(cs[1], OR)) && IsTree(cs[2], BooleanTerm))
    // comparison: INTNUM COMPARATOR INTNUM
    case Comparison =>
      |cs| == 3 &&
      IsToken(cs[0], INTNUM) && IsToken(cs[1], COMPARATOR) && IsToken(cs[2], INTNUM)
    // block: LBRACE basic_instruction* RBRACE
    case Block =>
      |cs| >= 2 && IsToken(cs[0], LBRACE) && IsToken(cs[|cs| - 1], RBRACE) &&
      forall i :: 0 < i < |cs| - 1 ==> IsTree(cs[i], BasicInstruction)
    // move_instruction: MOVEMENT expression
    case MoveInstruction =>
      |cs| == 2 && IsToken(cs[0], MOVEMENT) && IsTree(cs[1], Expression)
  }

  /** A tree the parser can produce: every rule node has its rule's layout
      and every token is a lexeme of its terminal. */
  predicate Grammatical(n: Node)
    decreases n
  {
    match n
    case Token(kind, value) => LexemeOk(kind, value)
    case Tree(rule, cs) => RuleLayout(rule, cs) && forall c <- cs :: Grammatical(c)
  }

  /** The children of a tree the parser can produce are such trees too. */
  lemma ChildGrammatical(n: Node, i: nat)
    requires Grammatical(n) && n.Tree? && i < |n.children|
    ensures Grammatical(n.children[i])
  {
    assert n.children[i] in n.children;
  }
}
