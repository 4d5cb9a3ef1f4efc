/** What the walk of `CodeGenerator` does to a whole program and to each
    kind of node, stated on `Gen` (which `GeneratePythonCode` is proved to
    perform). */
module GeneratorProperties {
  import opened SyntaxTree
  import opened Tables
  import opened BooleanTranslator
  import opened RangeTranslator
  import opened CodeGenerator

  /** A `rule` node the parser can produce. `Parsed(n, BooleanTerm)` is the
      same predicate as `IsBoolTerm(n)`; this one covers every rule, so the
      lemmas of this module state their preconditions with it. */
  predicate Parsed(n: Node, rule: Rule)
  {
    Grammatical(n) && IsTree(n, rule)
  }

  // ---------------------------------------------------------------------
  // The root: definitions first, then everything else
  // ---------------------------------------------------------------------

  /** The children a loop visits, in their order. */
  function Filter(cs: seq<Node>, pass: Pass): seq<Node>
  {
    if cs == [] then []
    else
      var last := cs[|cs| - 1];
      Filter(cs[..|cs| - 1], pass) + (if Selected(last, pass) then [last] else [])
  }

  /** A loop visits exactly the children its pass selects. */
  lemma {:induction false} FilterKeepsSelected(cs: seq<Node>, pass: Pass)
    ensures forall c <- Filter(cs, pass) :: c in cs && Selected(c, pass)
    ensures forall c <- cs :: Selected(c, pass) ==> c in Filter(cs, pass)
    decreases |cs|
  {
    if cs != [] {
      var init, last := cs[..|cs| - 1], cs[|cs| - 1];
      FilterKeepsSelected(init, pass);
      assert cs == init + [last];
    }
  }

  /** A loop that visits the children `pass` selects does what walking
      exactly those children, in order, does. */
  lemma {:induction false} GenEachWalksFiltered(cs: seq<Node>, pass: Pass, level: nat)
    requires WalkableEach(cs, pass)
    ensures WalkableEach(Filter(cs, pass), Every)
    ensures GenEach(cs, pass, level) == GenEach(Filter(cs, pass), Every, level)
    decreases |cs|
  {
    if cs != [] {
      var init, last := cs[..|cs| - 1], cs[|cs| - 1];
      assert WalkableEach(init, pass) by {
        forall c <- init | Selected(c, pass) ensures Walkable(c) {
          assert c in cs;
        }
      }
      GenEachWalksFiltered(init, pass, level);
      var f := Filter(init, pass);
      if Selected(last, pass) {
        assert Filter(cs, pass) == f + [last];
        assert (f + [last])[..|f|] == f;
        assert GenEach(f + [last], Every, level) == GenEach(f, Every, level).Then(Gen(last, level));
        assert GenEach(cs, pass, level) == GenEach(init, pass, level).Then(Gen(last, level));
      } else {
        assert Filter(cs, pass) == f;
        assert GenEach(cs, pass, level) == GenEach(init, pass, level).Then(Silent);
      }
    }
  }

  /** The two passes over the root's children together visit every child
      exactly once. */
  lemma {:induction false} PassesPartitionChildren(cs: seq<Node>)
    ensures multiset(Filter(cs, Definitions)) + multiset(Filter(cs, Instructions)) == multiset(cs)
    decreases |cs|
  {
    if cs != [] {
      PassesPartitionChildren(cs[..|cs| - 1]);
      assert cs == cs[..|cs| - 1] + [cs[|cs| - 1]];
    }
  }

  /** The root's first pass visits its function definitions, its second
      pass everything else, and together they visit each child exactly
      once. */
  lemma RootPassesPartitionChildren(cs: seq<Node>)
    ensures var defs, rest := Filter(cs, Definitions), Filter(cs, Instructions);
      (forall c <- defs :: IsTree(c, FunctionDef)) &&
      (forall c <- rest :: !IsTree(c, FunctionDef)) &&
      multiset(defs) + multiset(rest) == multiset(cs)
  {
    FilterKeepsSelected(cs, Definitions);
    FilterKeepsSelected(cs, Instructions);
    PassesPartitionChildren(cs);
  }

  /** The root writes the prologue, then every function definition among its
      children, then every other child, then the epilogue; its children are
      walked at level 0 whatever level the root is walked at. */
  lemma RootWritesDefinitionsFirst(ast: Node, level: nat)
    requires Walkable(ast) && IsTree(ast, Start)
    ensures var cs := ast.children;
      var defs, rest := Filter(cs, Definitions), Filter(cs, Instructions);
      WalkableEach(defs, Every) && WalkableEach(rest, Every) &&
      Gen(ast, level) ==
        Effects(Prologue, []).Then(GenEach(defs, Every, 0)).Then(GenEach(rest, Every, 0)).Then(Emit(Epilogue))
  {
    var cs := ast.children;
    assert WalkableEach(cs, Every);
    assert WalkableEach(cs, Definitions) && WalkableEach(cs, Instructions);
    GenEachWalksFiltered(cs, Definitions, 0);
    GenEachWalksFiltered(cs, Instructions, 0);
    assert Gen(ast, level) == GenStart(ast);
  }

  // ---------------------------------------------------------------------
  // The text of the output file
  // ---------------------------------------------------------------------

  lemma {:induction false} FlattenAppend(a: seq<string>, b: seq<string>)
    ensures Flatten(a + b) == Flatten(a) + Flatten(b)
    decreases |a|
  {
    if a != [] {
      assert (a + b)[1..] == a[1..] + b;
      FlattenAppend(a[1..], b);
      var x, y, z := a[0], Flatten(a[1..]), Flatten(b);
      assert (a + b)[0] == x;
      assert Flatten(a + b) == x + (y + z);
      assert Flatten(a) == x + y;
      assert x + (y + z) == (x + y) + z;
    } else {
      assert a + b == b;
    }
  }

  /** The file written for a program begins with the turtle import and the
      creation of the turtle `t`, and ends with the call to the event loop. */
  lemma ProgramTextFraming(ast: Node, level: nat)
    requires Walkable(ast) && IsTree(ast, Start)
    ensures var text := Flatten(Gen(ast, level).writes);
      |text| >= |Flatten(Prologue)| + |Epilogue| &&
      text[..|Flatten(Prologue)|] == Flatten(Prologue) &&
      text[|text| - |Epilogue|..] == Epilogue
  {
    var cs := ast.children;
    var middle := GenEach(cs, Definitions, 0).writes + GenEach(cs, Instructions, 0).writes;
    assert Gen(ast, level) == GenStart(ast);
    assert Gen(ast, level).writes == Prologue + middle + [Epilogue];
    FramedText(middle);
  }

  lemma FramedText(middle: seq<string>)
    ensures var text := Flatten(Prologue + middle + [Epilogue]);
      |text| >= |Flatten(Prologue)| + |Epilogue| &&
      text[..|Flatten(Prologue)|] == Flatten(Prologue) &&
      text[|text| - |Epilogue|..] == Epilogue
  {
    FlattenAppend(Prologue + middle, [Epilogue]);
    FlattenAppend(Prologue, middle);
    PrologueText();
    EpilogueText();
    Between(Flatten(Prologue), Flatten(middle), Epilogue);
  }

  lemma PrologueText()
    ensures Flatten(Prologue) == "import turtle\nt = turtle.Turtle()\n\n"
  {
    assert Prologue[1..][1..] == [];
  }

  lemma EpilogueText()
    ensures Flatten([Epilogue]) == Epilogue
  {
    assert [Epilogue][1..] == [];
  }

  lemma Between(x: string, m: string, y: string)
    ensures |x + m + y| >= |x| + |y|
    ensures (x + m + y)[..|x|] == x
    ensures (x + m + y)[|x + m + y| - |y|..] == y
  {
  }

  // ---------------------------------------------------------------------
  // One line per simple instruction
  // ---------------------------------------------------------------------

  /** Every movement the parser produces is walked: it writes one line
      calling the turtle's motion method for its command (the lookup never
      fails), with the text of its operand, a number or a name, as argument;
      nothing is reported. */
  lemma MoveInstructionLine(n: Node, level: nat)
    requires Parsed(n, MoveInstruction)
    ensures Walkable(n)
    ensures var cs := n.children;
      |cs| == 2 && cs[0].value in CommandMapMove && |cs[1].children| == 1 &&
      (IsToken(cs[1].children[0], INTNUM) || IsToken(cs[1].children[0], NAME)) &&
      CommandMapMove[cs[0].value] in {"forward", "backward", "left", "right", "width"} &&
      Gen(n, level).writes == [Indent(level) + "t." + CommandMapMove[cs[0].value] + "(" + cs[1].children[0].value + ")\n"] &&
      Gen(n, level).reports == []
  {
    var cs := n.children;
    assert RuleLayout(MoveInstruction, cs);
    ChildGrammatical(n, 0);
    ChildGrammatical(n, 1);
    assert RuleLayout(Expression, cs[1].children);
    MoveTableCoversMovementWords();
    assert MoveWalkable(cs);
    assert Gen(n, level) == GenMove(n, level);
  }

  /** Every pen command the parser produces is walked: it writes one line
      lifting or lowering the pen. */
  lemma PenLine(n: Node, level: nat)
    requires Parsed(n, BasicInstruction) && n.children[0].Token?
    ensures Walkable(n)
    ensures var cs := n.children;
      IsToken(cs[0], PEN) && cs[0].value in PenWords &&
      Gen(n, level).writes ==
        [Indent(level) + "t." + (if cs[0].value == "PU" then "penup" else "pendown") + "()\n"] &&
      Gen(n, level).reports == []
  {
    var cs := n.children;
    assert RuleLayout(BasicInstruction, cs);
    ChildGrammatical(n, 0);
    PenTableCoversPenWords();
    assert BasicWalkable(cs);
    assert Gen(n, level) == GenBasicInstruction(n, level);
  }

  /** Any other basic instruction the parser produces is its only child,
      walked at the same level: the instruction is walked exactly when that
      child is, and does what the child does. */
  lemma BasicInstructionTransparent(n: Node, level: nat)
    requires Parsed(n, BasicInstruction) && n.children[0].Tree?
    ensures var c := n.children[0];
      |n.children| == 1 && Grammatical(c) &&
      c.data in {MoveInstruction, Conditional, SingleFor, DoubleFor, FunctionCall} &&
      (Walkable(n) <==> Walkable(c)) &&
      (Walkable(n) ==> Gen(n, level) == Gen(c, level))
  {
    var cs := n.children;
    assert RuleLayout(BasicInstruction, cs);
    ChildGrammatical(n, 0);
    assert BasicWalkable(cs) <==> Walkable(cs[0]) by {
      assert WalkableEach(cs, Every) <==> Walkable(cs[0]) by {
        assert cs == [cs[0]];
      }
    }
    if Walkable(n) {
      assert Gen(n, level) == GenEach(cs, Every, level);
      assert cs[..0] == [];
      assert GenEach(cs, Every, level) == Silent.Then(Gen(cs[0], level));
    }
  }

  // ---------------------------------------------------------------------
  // Calls and definitions
  // ---------------------------------------------------------------------

  /** A call the parser produces is walked without raising exactly when it
      has arguments. */
  lemma CallsNeedArguments(n: Node)
    requires Parsed(n, FunctionCall)
    ensures Walkable(n) <==> |n.children| == 4
  {
    var cs := n.children;
    assert RuleLayout(FunctionCall, cs);
    if |cs| == 4 {
      ChildGrammatical(n, 2);
      var al := cs[2].children;
      assert RuleLayout(ArgList, al);
      forall a <- al ensures ArgumentReadable(a) {
        var i :| 0 <= i < |al| && al[i] == a;
        if i % 2 == 0 {
          ChildGrammatical(cs[2], i);
          assert RuleLayout(Expression, a.children);
        }
      }
      assert CallWalkable(cs);
    }
  }

  /** A definition the parser produces is walked without raising exactly
      when it has exactly one parameter and every instruction of its body is
      walked without raising. */
  lemma DefinitionsNeedOneParameter(n: Node)
    requires Parsed(n, FunctionDef)
    ensures var cs := n.children;
      Walkable(n) <==>
        |cs| == 6 && |cs[3].children| == 1 && WalkableEach(cs[5].children, Subtrees)
  {
    var cs := n.children;
    assert RuleLayout(FunctionDef, cs);
    if |cs| == 6 {
      ChildGrammatical(n, 3);
      var ps := cs[3].children;
      assert RuleLayout(ParamList, ps);
      if |ps| > 1 {
        assert IsTree(ps[2], Expression) && ps[2] in ps;
      } else {
        assert forall p <- ps :: p.Token?;
      }
    }
  }

  /** Expressions, each with a token as first child, at even positions and
      tokens at odd positions, as in an argument list. */
  predicate Alternating(al: seq<Node>)
  {
    forall i | 0 <= i < |al| ::
      if i % 2 == 0 then al[i].Tree? && |al[i].children| >= 1 && al[i].children[0].Token? else al[i].Token?
  }

  lemma AlternatingIsReadable(al: seq<Node>)
    requires Alternating(al)
    ensures forall a <- al :: ArgumentReadable(a)
  {
    forall a <- al ensures ArgumentReadable(a) {
      var i :| 0 <= i < |al| && al[i] == a;
    }
  }

  /** The argument loop collects the texts of the expressions of an argument
      list, one per expression, in order. */
  lemma {:induction false} ArgTextsAreExpressionTexts(al: seq<Node>)
    requires Alternating(al)
    ensures forall a <- al :: ArgumentReadable(a)
    ensures var args := ArgTexts(al);
      |args| == (|al| + 1) / 2 &&
      (forall i | 0 <= i < |args| ::
        2 * i < |al| && al[2 * i].Tree? && |al[2 * i].children| >= 1 && al[2 * i].children[0].Token?) &&
      forall i | 0 <= i < |args| :: args[i] == al[2 * i].children[0].value
    decreases |al|
  {
    AlternatingIsReadable(al);
    if al != [] {
      var k := |al| - 1;
      var init := al[..k];
      assert Alternating(init) by {
        forall i | 0 <= i < k ensures init[i] == al[i] {}
      }
      ArgTextsAreExpressionTexts(init);
      var prev := ArgTexts(init);
      if k % 2 == 0 {
        assert ArgTexts(al) == prev + [al[k].children[0].value];
      } else {
        assert ArgTexts(al) == prev;
      }
    }
  }

  /** A call with arguments writes one line: the name applied to the texts
      of its argument expressions, in order, separated by commas. */
  lemma FunctionCallLine(n: Node, level: nat)
    requires Parsed(n, FunctionCall) && |n.children| == 4
    ensures Walkable(n)
    ensures var cs := n.children;
      IsTree(cs[2], ArgList) &&
      (forall a <- cs[2].children :: ArgumentReadable(a)) &&
      var args := ArgTexts(cs[2].children);
      |args| == (|cs[2].children| + 1) / 2 &&
      (forall i | 0 <= i < |args| ::
        2 * i < |cs[2].children| && cs[2].children[2 * i].Tree? && |cs[2].children[2 * i].children| >= 1 &&
        cs[2].children[2 * i].children[0].Token?) &&
      (forall i | 0 <= i < |args| :: args[i] == cs[2].children[2 * i].children[0].value) &&
      Gen(n, level).writes == [Indent(level) + cs[0].value + "(" + Join(args, ",") + ")\n"] &&
      Gen(n, level).reports == []
  {
    var cs := n.children;
    CallsNeedArguments(n);
    assert RuleLayout(FunctionCall, cs);
    ChildGrammatical(n, 2);
    var al := cs[2].children;
    assert RuleLayout(ArgList, al);
    assert Alternating(al) by {
      forall i | 0 <= i < |al| && i % 2 == 0 ensures |al[i].children| >= 1 && al[i].children[0].Token? {
        ChildGrammatical(cs[2], i);
        assert RuleLayout(Expression, al[i].children);
      }
    }
    ArgTextsAreExpressionTexts(al);
    assert Gen(n, level) == GenFunctionCall(n, level);
  }

  /** The instructions of a block: everything between the braces. */
  lemma BlockInstructions(b: Node)
    requires Parsed(b, Block)
    ensures var bc := b.children;
      |bc| >= 2 && Filter(bc, Subtrees) == bc[1..|bc| - 1] &&
      (forall c <- bc :: c.Tree? ==> IsTree(c, BasicInstruction)) &&
      forall c <- bc :: Grammatical(c)
  {
    var bc := b.children;
    assert RuleLayout(Block, bc);
    assert forall i | 0 < i < |bc| - 1 :: bc[i].Tree? by {
      forall i | 0 < i < |bc| - 1 ensures bc[i].Tree? {
        assert IsTree(bc[i], BasicInstruction);
      }
    }
    BlockFilter(bc);
    BlockRuleNodes(b.children);
  }

  /** Between two brace tokens, the subtrees are everything but the braces. */
  lemma BlockFilter(bc: seq<Node>)
    requires |bc| >= 2 && bc[0].Token? && bc[|bc| - 1].Token?
    requires forall i | 0 < i < |bc| - 1 :: bc[i].Tree?
    ensures Filter(bc, Subtrees) == bc[1..|bc| - 1]
  {
    var k := |bc| - 1;
    var inner := bc[..k];
    assert forall i | 1 <= i < |inner| :: inner[i].Tree? by {
      forall i | 1 <= i < |inner| ensures inner[i].Tree? {
        assert inner[i] == bc[i];
      }
    }
    FilterSkipsLeadingToken(inner);
    assert Filter(bc, Subtrees) == Filter(inner, Subtrees) + [];
    assert inner[1..] == bc[1..k];
  }

  lemma BlockRuleNodes(bc: seq<Node>)
    requires RuleLayout(Block, bc)
    ensures forall c <- bc :: c.Tree? ==> IsTree(c, BasicInstruction)
  {
    forall c <- bc | c.Tree? ensures IsTree(c, BasicInstruction) {
      var i :| 0 <= i < |bc| && bc[i] == c;
    }
  }

  /** Skipping a leading token of a sequence of rule nodes keeps exactly the
      rule nodes. */
  lemma {:induction false} FilterSkipsLeadingToken(s: seq<Node>)
    requires |s| >= 1 && s[0].Token?
    requires forall i | 1 <= i < |s| :: s[i].Tree?
    ensures Filter(s, Subtrees) == s[1..]
    decreases |s|
  {
    var k := |s| - 1;
    var init := s[..k];
    if k == 0 {
      assert init == [];
    } else {
      assert forall i | 1 <= i < |init| :: init[i].Tree? by {
        forall i | 1 <= i < |init| ensures init[i].Tree? {
          assert init[i] == s[i];
        }
      }
      FilterSkipsLeadingToken(init);
      assert s[1..] == init[1..] + [s[k]];
    }
  }

  /** A definition that is walked writes its header, naming its one
      parameter, then the instructions of its body one level deeper, in
      order, then a blank line. */
  lemma FunctionDefText(n: Node, level: nat)
    requires Parsed(n, FunctionDef) && DefinitionWalkable(n.children)
    ensures var cs := n.children;
      |cs| == 6 && IsTree(cs[3], ParamList) && |cs[3].children| == 1 && cs[3].children[0].Token? &&
      IsTree(cs[5], Block) && |cs[5].children| >= 2 &&
      var body := cs[5].children[1..|cs[5].children| - 1];
      WalkableEach(body, Every) &&
      GenFunctionDef(n, level) ==
        Emit(Indent(level) + "def " + cs[1].value + "(" + cs[3].children[0].value + "):\n")
          .Then(GenEach(body, Every, level + 1))
          .Then(Emit("\n"))
  {
    DefinitionShape(n);
    BlockBody(n.children[5], level + 1);
    DefinitionEffects(n, level);
  }

  /** The definition's effects once its parameter text and its body loop
      are known. */
  lemma DefinitionEffects(n: Node, level: nat)
    requires IsTree(n, FunctionDef) && DefinitionWalkable(n.children)
    requires var cs := n.children;
      |cs| == 6 && IsTree(cs[3], ParamList) && |cs[3].children| == 1 && cs[3].children[0].Token? &&
      Join(DefParams(cs), ", ") == cs[3].children[0].value &&
      cs[5].Tree? && |cs[5].children| >= 2 &&
      var body := cs[5].children[1..|cs[5].children| - 1];
      WalkableEach(body, Every) &&
      GenEach(cs[5].children, Subtrees, level + 1) == GenEach(body, Every, level + 1)
    ensures var cs := n.children;
      var body := cs[5].children[1..|cs[5].children| - 1];
      GenFunctionDef(n, level) ==
        Emit(Indent(level) + "def " + cs[1].value + "(" + cs[3].children[0].value + "):\n")
          .Then(GenEach(body, Every, level + 1))
          .Then(Emit("\n"))
  {
  }

  /** A definition that is walked has six children: its parameter list
      holds one name, which is what the header lists, and its block is the
      sixth child, whose rule-node children are walked. */
  lemma DefinitionShape(n: Node)
    requires Parsed(n, FunctionDef) && DefinitionWalkable(n.children)
    ensures var cs := n.children;
      |cs| == 6 && IsTree(cs[3], ParamList) && |cs[3].children| == 1 && cs[3].children[0].Token? &&
      Join(DefParams(cs), ", ") == cs[3].children[0].value &&
      Parsed(cs[5], Block) && WalkableEach(cs[5].children, Subtrees)
  {
    var cs := n.children;
    DefinitionsNeedOneParameter(n);
    assert RuleLayout(FunctionDef, cs);
    ChildGrammatical(n, 3);
    ChildGrammatical(n, 5);
    assert RuleLayout(ParamList, cs[3].children);
    var ps := cs[3].children;
    assert ParamNames(ps) == [ps[0].value] + ParamNames([]) by {
      assert ps[1..] == [];
    }
  }

  /** The body loop over a block walks the instructions between its braces. */
  lemma BlockBody(b: Node, level: nat)
    requires Parsed(b, Block) && WalkableEach(b.children, Subtrees)
    ensures |b.children| >= 2 &&
      var body := b.children[1..|b.children| - 1];
      (forall c <- body :: IsTree(c, BasicInstruction) && Grammatical(c)) &&
      WalkableEach(body, Every) &&
      GenEach(b.children, Subtrees, level) == GenEach(body, Every, level)
  {
    BlockInstructions(b);
    GenEachWalksFiltered(b.children, Subtrees, level);
  }

  // ---------------------------------------------------------------------
  // Conditionals and loops: headers only
  // ---------------------------------------------------------------------

  /** A block is walked without raising, is reported, and nothing of it is
      written. */
  lemma BlockIsReported(b: Node, level: nat)
    requires IsTree(b, Block)
    ensures Walkable(b) && Gen(b, level).writes == [] && Gen(b, level).reports == [b]
  {
  }

  /** Every conditional the parser produces is walked: it writes its `if`
      line, with the translated condition, and, with an else branch, its
      `else:` line; its blocks are reported, never written. */
  lemma ConditionalWritesHeaderOnly(n: Node, level: nat)
    requires Parsed(n, Conditional)
    ensures Walkable(n)
    ensures var cs := n.children;
      (|cs| == 3 || |cs| == 5) && Translatable(cs[1]) &&
      Gen(n, level).writes ==
        [Indent(level) + "if " + Translate(cs[1], "") + ":\n"] +
        (if |cs| == 5 then [Indent(level) + "else:\n"] else []) &&
      Gen(n, level).reports == [cs[2]] + (if |cs| == 5 then [cs[4]] else [])
  {
    var cs := n.children;
    assert RuleLayout(Conditional, cs);
    ChildGrammatical(n, 1);
    GrammarGivesTranslatable(cs[1]);
    assert Walkable(cs[2]) by { BlockIsReported(cs[2], level + 1); }
    if |cs| == 5 {
      assert Walkable(cs[4]) by { BlockIsReported(cs[4], level + 1); }
    }
    assert ConditionalWalkable(cs);
    ConditionalText(n, level);
  }

  /** The effects of a conditional whose branches are blocks. */
  lemma ConditionalText(n: Node, level: nat)
    requires IsTree(n, Conditional) && ConditionalWalkable(n.children)
    requires IsTree(n.children[2], Block)
    requires |n.children| > 3 ==> IsTree(n.children[4], Block)
    ensures var cs := n.children;
      GenConditional(n, level).writes ==
        [Indent(level) + "if " + Translate(cs[1], "") + ":\n"] +
        (if |cs| > 3 then [Indent(level) + "else:\n"] else []) &&
      GenConditional(n, level).reports == [cs[2]] + (if |cs| > 3 then [cs[4]] else [])
  {
    var cs := n.children;
    var header := Indent(level) + "if " + Translate(cs[1], "") + ":\n";
    BlockIsReported(cs[2], level + 1);
    var thenPart := Emit(header).Then(Gen(cs[2], level + 1));
    assert thenPart == Effects([header], [cs[2]]);
    if |cs| > 3 {
      BlockIsReported(cs[4], level + 1);
      var elsePart := Emit(Indent(level) + "else:\n").Then(Gen(cs[4], level + 1));
      assert elsePart == Effects([Indent(level) + "else:\n"], [cs[4]]);
      assert GenConditional(n, level) == thenPart.Then(elsePart);
    } else {
      assert GenConditional(n, level) == thenPart.Then(Silent);
    }
  }

  /** A conditional whose condition has no negation gets the intended `if`
      line: the condition written with `and`/`or`, each binary
      operator in its own parentheses. */
  lemma ConditionWithoutNegationIsIntended(n: Node, level: nat)
    requires Parsed(n, Conditional)
    requires var e := n.children[1];
      IsTree(e, BooleanExpression) && |e.children| == 1 && IsBoolTerm(e.children[0]) &&
      NotFree(Abstract(e.children[0]))
    ensures Walkable(n)
    ensures |Gen(n, level).writes| >= 1 && Gen(n, level).writes[0] ==
      Indent(level) + "if " + Intended(Abstract(n.children[1].children[0])) + ":\n"
  {
    var cs := n.children;
    ConditionalWritesHeaderOnly(n, level);
    ChildGrammatical(n, 1);
    ConditionText(cs[1], "");
    NegationFreeTermIsIntended(cs[1].children[0]);
  }

  /** Every counting loop the parser produces is walked: it writes its
      `for ... in range(...)` line, the range arguments copied as written;
      its block is reported, never written. */
  lemma SingleForWritesHeaderOnly(n: Node, level: nat)
    requires Parsed(n, SingleFor)
    ensures Walkable(n)
    ensures var cs := n.children;
      |cs| == 8 && IsTree(cs[5], RangeArgs) && (forall c <- cs[5].children :: c.Token?) &&
      Gen(n, level).writes ==
        [Indent(level) + "for " + cs[1].value + " in range(" + TokenText(cs[5].children) + "):\n"] &&
      Gen(n, level).reports == [cs[7]]
  {
    var cs := n.children;
    assert RuleLayout(SingleFor, cs);
    ChildGrammatical(n, 5);
    RangeArgsPassThrough(cs[5]);
    BlockIsReported(cs[7], level + 1);
    assert SingleForWalkable(cs);
    assert Gen(n, level) == GenSingleFor(n, level);
  }

  /** The range arguments inside a parsed `range(...)` are ones the range
      translator copies through. */
  lemma RangeExprArgs(r: Node)
    requires Parsed(r, RangeExpr)
    ensures var cs := r.children;
      |cs| == 4 && IsTree(cs[2], RangeArgs) && RangeInput(cs[2]) &&
      TranslateRangeArgs(cs[2], "") == TokenText(cs[2].children)
  {
    assert RuleLayout(RangeExpr, r.children);
    ChildGrammatical(r, 2);
    RangeArgsPassThrough(r.children[2]);
  }

  /** Every paired loop the parser produces is walked: it writes its
      `for ..., ... in zip(range(...), range(...))` line, both range
      arguments copied as written; its block is reported, never written. */
  lemma DoubleForWritesHeaderOnly(n: Node, level: nat)
    requires Parsed(n, DoubleFor)
    ensures Walkable(n)
    ensures var cs := n.children;
      |cs| == 12 &&
      |cs[7].children| == 4 && IsTree(cs[7].children[2], RangeArgs) &&
      |cs[9].children| == 4 && IsTree(cs[9].children[2], RangeArgs) &&
      (forall c <- cs[7].children[2].children :: c.Token?) &&
      (forall c <- cs[9].children[2].children :: c.Token?) &&
      Gen(n, level).writes ==
        [Indent(level) + "for " + cs[1].value + "," + cs[3].value + " in zip(range(" +
         TokenText(cs[7].children[2].children) + "), range(" +
         TokenText(cs[9].children[2].children) + ")):\n"] &&
      Gen(n, level).reports == [cs[11]]
  {
    var cs := n.children;
    assert RuleLayout(DoubleFor, cs);
    ChildGrammatical(n, 7);
    ChildGrammatical(n, 9);
    RangeExprArgs(cs[7]);
    RangeExprArgs(cs[9]);
    BlockIsReported(cs[11], level + 1);
    assert DoubleForWalkable(cs);
    assert Gen(n, level) == GenDoubleFor(n, level);
  }

  // ---------------------------------------------------------------------
  // Indentation
  // ---------------------------------------------------------------------

  /** A line indented by at least `level` steps of four spaces, or the blank
      line that closes a definition. */
  predicate Indented(w: string, level: nat)
  {
    w == "\n" || (|w| >= 4 * level && forall i | 0 <= i < 4 * level :: w[i] == ' ')
  }

  /** Everything a parsed node other than the root writes at `level` is
      indented by at least `level` steps: the body of a definition sits one
      step deeper than its header. */
  lemma {:induction false} GenIndented(n: Node, level: nat)
    requires Grammatical(n) && Walkable(n) && !IsTree(n, Start)
    ensures forall w <- Gen(n, level).writes :: Indented(w, level)
    decreases n, 2
  {
    match n.data {
      case FunctionDef => DefinitionIndented(n, level);
      case BasicInstruction =>
        if n.children[0].Token? {
          PenIndented(n, level);
        } else {
          BasicInstructionTransparent(n, level);
          GenIndented(n.children[0], level);
        }
      case FunctionCall => CallIndented(n, level);
      case Conditional => ConditionalIndented(n, level);
      case SingleFor => SingleForIndented(n, level);
      case DoubleFor => DoubleForIndented(n, level);
      case MoveInstruction => MoveIndented(n, level);
      case _ =>
    }
  }

  lemma PenIndented(n: Node, level: nat)
    requires Parsed(n, BasicInstruction) && n.children[0].Token? && Walkable(n)
    ensures forall w <- Gen(n, level).writes :: Indented(w, level)
  {
    PenLine(n, level);
  }

  lemma CallIndented(n: Node, level: nat)
    requires Parsed(n, FunctionCall) && Walkable(n)
    ensures forall w <- Gen(n, level).writes :: Indented(w, level)
  {
    CallsNeedArguments(n);
    FunctionCallLine(n, level);
  }

  lemma ConditionalIndented(n: Node, level: nat)
    requires Parsed(n, Conditional) && Walkable(n)
    ensures forall w <- Gen(n, level).writes :: Indented(w, level)
  {
    ConditionalWritesHeaderOnly(n, level);
  }

  lemma SingleForIndented(n: Node, level: nat)
    requires Parsed(n, SingleFor) && Walkable(n)
    ensures forall w <- Gen(n, level).writes :: Indented(w, level)
  {
    SingleForWritesHeaderOnly(n, level);
  }

  lemma DoubleForIndented(n: Node, level: nat)
    requires Parsed(n, DoubleFor) && Walkable(n)
    ensures forall w <- Gen(n, level).writes :: Indented(w, level)
  {
    DoubleForWritesHeaderOnly(n, level);
  }

  lemma MoveIndented(n: Node, level: nat)
    requires Parsed(n, MoveInstruction) && Walkable(n)
    ensures forall w <- Gen(n, level).writes :: Indented(w, level)
  {
    MoveInstructionLine(n, level);
  }

  lemma {:induction false} GenEachIndented(cs: seq<Node>, pass: Pass, level: nat)
    requires WalkableEach(cs, pass)
    requires forall c <- cs :: Selected(c, pass) ==> Grammatical(c) && !IsTree(c, Start)
    ensures forall w <- GenEach(cs, pass, level).writes :: Indented(w, level)
    decreases cs, 0
  {
    if cs != [] {
      var init, last := cs[..|cs| - 1], cs[|cs| - 1];
      assert WalkableEach(init, pass) by {
        forall c <- init | Selected(c, pass) ensures Walkable(c) {
          assert c in cs;
        }
      }
      GenEachIndented(init, pass, level);
      if Selected(last, pass) {
        GenIndented(last, level);
      }
    }
  }

  lemma {:induction false} DefinitionIndented(n: Node, level: nat)
    requires Parsed(n, FunctionDef) && Walkable(n)
    ensures forall w <- Gen(n, level).writes :: Indented(w, level)
    decreases n, 1
  {
    assert DefinitionWalkable(n.children);
    DefinitionTextIndented(n, level);
    assert Gen(n, level) == GenFunctionDef(n, level);
  }

  lemma {:induction false} DefinitionTextIndented(n: Node, level: nat)
    requires Parsed(n, FunctionDef) && DefinitionWalkable(n.children)
    ensures forall w <- GenFunctionDef(n, level).writes :: Indented(w, level)
    decreases n, 0
  {
    var cs := n.children;
    DefinitionShape(n);
    var bc := cs[5].children;
    BlockInstructions(cs[5]);
    GenEachIndented(bc, Subtrees, level + 1);
    var body := GenEach(bc, Subtrees, level + 1).writes;
    var header := Indent(level) + "def " + cs[1].value + "(" + Join(DefParams(cs), ", ") + "):\n";
    assert GenFunctionDef(n, level).writes == [header] + body + ["\n"];
    assert Indented(header, level);
    forall w <- body ensures Indented(w, level) {
      assert Indented(w, level + 1);
    }
  }
}
