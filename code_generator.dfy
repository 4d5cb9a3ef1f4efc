/** The tree-to-text back end: a recursive walk of the parse tree that
    writes Python statements to an output file, four spaces of indentation
    per level.

    `Gen` states, per node, the strings the walk writes (in order) and the
    nodes it reports on the console as having no translation;
    `GeneratePythonCode` performs the walk on an `OutputFile` and a
    `Console` and is proved to do exactly what `Gen` states. A `block` has no
    branch of its own: it is reported and nothing of it is written, so the
    bodies of conditionals and loops never reach the output. */
module CodeGenerator {
  import opened SyntaxTree
  import opened Tables
  import opened BooleanTranslator
  import opened RangeTranslator

  /** What a walk does: the strings written to the output file, in order,
      and the nodes reported as having no translation, in order. */
  datatype Effects = Effects(writes: seq<string>, reports: seq<Node>)
  {
    /** This walk followed by `next`. */
    function Then(next: Effects): Effects
    {
      Effects(writes + next.writes, reports + next.reports)
    }
  }

  function Emit(s: string): Effects { Effects([s], []) }

  const Silent: Effects := Effects([], [])

  /** The indentation of a statement at `level`: four spaces per level. */
  function Indent(level: nat): (r: string)
    ensures |r| == 4 * level
    ensures forall i | 0 <= i < |r| :: r[i] == ' '
  {
    if level == 0 then "" else Indent(level - 1) + "    "
  }

  /** Python's `sep.join(xs)`. */
  function Join(xs: seq<string>, sep: string): string
  {
    if |xs| == 0 then "" else if |xs| == 1 then xs[0] else xs[0] + sep + Join(xs[1..], sep)
  }

  /** The concatenation of everything written, i.e. the output file's text. */
  function Flatten(ws: seq<string>): string
  {
    if ws == [] then "" else ws[0] + Flatten(ws[1..])
  }

  const Prologue: seq<string> := ["import turtle\n", "t = turtle.Turtle()\n\n"]
  const Epilogue: string := "\nturtle.mainloop()\n"

  // ---------------------------------------------------------------------
  // Which children a loop over `children` visits
  // ---------------------------------------------------------------------

  /** The four loops over children: the root's first pass (function
      definitions), its second pass (everything else), a function body's loop
      (rule nodes only, skipping the braces) and a basic instruction's loop
      (every child). */
  datatype Pass = Definitions | Instructions | Subtrees | Every

  predicate Selected(c: Node, pass: Pass)
  {
    match pass
    case Definitions => IsTree(c, FunctionDef)
    case Instructions => !IsTree(c, FunctionDef)
    case Subtrees => c.Tree?
    case Every => true
  }

  // ---------------------------------------------------------------------
  // The trees the generator walks without raising
  // ---------------------------------------------------------------------

  /** The trees the walk handles without raising: every node it visits is a
      rule node (it reads `.data`), and each rule's own branch is satisfied.
      Rules without a branch of their own are always walkable. */
  predicate Walkable(n: Node)
    decreases n, 2
  {
    match n
    case Token(_, _) => false
    case Tree(rule, cs) =>
      match rule
      case Start => WalkableEach(cs, Every)
      case FunctionDef => DefinitionWalkable(cs)
      case FunctionCall => CallWalkable(cs)
      case BasicInstruction => BasicWalkable(cs)
      case Conditional => ConditionalWalkable(cs)
      case SingleFor => SingleForWalkable(cs)
      case DoubleFor => DoubleForWalkable(cs)
      case MoveInstruction => MoveWalkable(cs)
      case _ => true
  }

  /** Every child of `cs` that `pass` visits is walkable. */
  predicate WalkableEach(cs: seq<Node>, pass: Pass)
    decreases cs, 1
  {
    forall c <- cs :: Selected(c, pass) ==> Walkable(c)
  }

  /** A definition: its name is a token; its fourth child, when there are more
      than four, is a rule node, and a parameter list of tokens only; its last
      child is a rule node whose rule-node children are walkable. */
  predicate DefinitionWalkable(cs: seq<Node>)
    decreases cs, 2
  {
    |cs| >= 2 && cs[1].Token? &&
    (|cs| > 4 ==> cs[3].Tree? && (cs[3].data == ParamList ==> forall p <- cs[3].children :: p.Token?)) &&
    cs[|cs| - 1].Tree? && WalkableEach(cs[|cs| - 1].children, Subtrees)
  }

  /** An argument the argument loop handles: a token (skipped), or a rule node
      whose first child is a token. */
  predicate ArgumentReadable(a: Node)
  {
    a.Token? || (|a.children| >= 1 && a.children[0].Token?)
  }

  /** A call: its name is a token and, when there are more than two
      children, the third is a rule node of readable arguments. */
  predicate CallWalkable(cs: seq<Node>)
  {
    |cs| >= 1 && cs[0].Token? &&
    (|cs| > 2 ==> cs[2].Tree? && forall a <- cs[2].children :: ArgumentReadable(a))
  }

  /** A basic instruction: a pen command the pen table maps, or children that
      are all walkable. */
  predicate BasicWalkable(cs: seq<Node>)
    decreases cs, 2
  {
    |cs| >= 1 &&
    if cs[0].Token? then cs[0].value in CommandMapPen else WalkableEach(cs, Every)
  }

  /** A conditional: a condition the boolean translator handles, a walkable
      then-branch and, with more than three children, a walkable fifth. */
  predicate ConditionalWalkable(cs: seq<Node>)
    decreases cs, 2
  {
    |cs| >= 3 && Translatable(cs[1]) && Walkable(cs[2]) && (|cs| > 3 ==> |cs| >= 5 && Walkable(cs[4]))
  }

  /** A single loop: a token variable, range arguments the range translator
      handles, a walkable eighth child. */
  predicate SingleForWalkable(cs: seq<Node>)
    decreases cs, 2
  {
    |cs| >= 8 && cs[1].Token? && RangeInput(cs[5]) && Walkable(cs[7])
  }

  /** A double loop: two token variables, two range expressions whose third
      children the range translator handles, a walkable twelfth child. */
  predicate DoubleForWalkable(cs: seq<Node>)
    decreases cs, 2
  {
    |cs| >= 12 && cs[1].Token? && cs[3].Token? &&
    cs[7].Tree? && |cs[7].children| >= 3 && RangeInput(cs[7].children[2]) &&
    cs[9].Tree? && |cs[9].children| >= 3 && RangeInput(cs[9].children[2]) &&
    Walkable(cs[11])
  }

  /** A movement: exactly two children, a movement command the movement
      table maps, and a readable operand. */
  predicate MoveWalkable(cs: seq<Node>)
  {
    |cs| == 2 && cs[0].Token? && cs[0].value in CommandMapMove && ArgumentReadable(cs[1])
  }

  // ---------------------------------------------------------------------
  // What the walk writes and reports
  // ---------------------------------------------------------------------

  /** The walk of `n` at indentation `level`. Any rule without a branch of
      its own (a block, an expression, ...) is reported, and nothing is
      written for it. */
  function Gen(n: Node, level: nat): Effects
    requires Walkable(n)
    decreases n, 1
  {
    match n.data
    case Start => GenStart(n)
    case FunctionDef => GenFunctionDef(n, level)
    case FunctionCall => GenFunctionCall(n, level)
    case BasicInstruction => GenBasicInstruction(n, level)
    case Conditional => GenConditional(n, level)
    case SingleFor => GenSingleFor(n, level)
    case DoubleFor => GenDoubleFor(n, level)
    case MoveInstruction => GenMove(n, level)
    case _ => Effects([], [n])
  }

  /** The children of `cs` that `pass` visits, each walked at `level`, in order. */
  function GenEach(cs: seq<Node>, pass: Pass, level: nat): Effects
    requires WalkableEach(cs, pass)
    decreases cs, 0
  {
    if cs == [] then Silent
    else
      var last := cs[|cs| - 1];
      GenEach(cs[..|cs| - 1], pass, level).Then(if Selected(last, pass) then Gen(last, level) else Silent)
  }

  /** The root: the prologue, every function definition, every other
      instruction, the epilogue; the children are walked at level 0. */
  function GenStart(n: Node): Effects
    requires IsTree(n, Start) && WalkableEach(n.children, Every)
    decreases n, 0
  {
    Effects(Prologue, [])
      .Then(GenEach(n.children, Definitions, 0))
      .Then(GenEach(n.children, Instructions, 0))
      .Then(Emit(Epilogue))
  }

  /** The names among the parameter-list children, in order. */
  function ParamNames(ps: seq<Node>): seq<string>
    requires forall p <- ps :: p.Token?
  {
    if ps == [] then []
    else (if ps[0].kind == NAME then [ps[0].value] else []) + ParamNames(ps[1..])
  }

  /** The parameters a definition's header lists: those of its parameter
      list when it has more than four children and its fourth child is one. */
  function DefParams(cs: seq<Node>): seq<string>
    requires |cs| > 4 ==> cs[3].Tree? && (cs[3].data == ParamList ==> forall p <- cs[3].children :: p.Token?)
  {
    if |cs| > 4 && cs[3].data == ParamList then ParamNames(cs[3].children) else []
  }

  /** The header line, every rule node of the block one level deeper, and a
      blank line. */
  function GenFunctionDef(n: Node, level: nat): Effects
    requires IsTree(n, FunctionDef) && DefinitionWalkable(n.children)
    decreases n, 0
  {
    var cs := n.children;
    Emit(Indent(level) + "def " + cs[1].value + "(" + Join(DefParams(cs), ", ") + "):\n")
      .Then(GenEach(cs[|cs| - 1].children, Subtrees, level + 1))
      .Then(Emit("\n"))
  }

  /** The argument loop: the text of the first child of every rule node. */
  function ArgTexts(args: seq<Node>): seq<string>
    requires forall a <- args :: ArgumentReadable(a)
  {
    if args == [] then []
    else
      var last := args[|args| - 1];
      assert ArgumentReadable(last);
      ArgTexts(args[..|args| - 1]) + (if last.Token? then [] else [last.children[0].value])
  }

  /** The arguments a call's line lists: none unless it has more than two
      children. */
  function CallArgs(cs: seq<Node>): seq<string>
    requires |cs| > 2 ==> cs[2].Tree? && forall a <- cs[2].children :: ArgumentReadable(a)
  {
    if |cs| > 2 then ArgTexts(cs[2].children) else []
  }

  /** One line: the name applied to the argument texts, joined by commas. */
  function GenFunctionCall(n: Node, level: nat): Effects
    requires IsTree(n, FunctionCall) && CallWalkable(n.children)
    decreases n, 0
  {
    var cs := n.children;
    Emit(Indent(level) + cs[0].value + "(" + Join(CallArgs(cs), ",") + ")\n")
  }

  /** A pen command is one line; otherwise every child is walked at the same
      level. */
  function GenBasicInstruction(n: Node, level: nat): Effects
    requires IsTree(n, BasicInstruction) && BasicWalkable(n.children)
    decreases n, 0
  {
    var cs := n.children;
    if cs[0].Token? then Emit(Indent(level) + "t." + CommandMapPen[cs[0].value] + "()\n")
    else GenEach(cs, Every, level)
  }

  /** The `if` line and, with an else branch, the `else:` line; the blocks
      are walked one level deeper. */
  function GenConditional(n: Node, level: nat): Effects
    requires IsTree(n, Conditional) && ConditionalWalkable(n.children)
    decreases n, 0
  {
    var cs := n.children;
    Emit(Indent(level) + "if " + Translate(cs[1], "") + ":\n")
      .Then(Gen(cs[2], level + 1))
      .Then(if |cs| > 3 then Emit(Indent(level) + "else:\n").Then(Gen(cs[4], level + 1)) else Silent)
  }

  /** The `for ... in range(...)` line; the block is walked one level deeper. */
  function GenSingleFor(n: Node, level: nat): Effects
    requires IsTree(n, SingleFor) && SingleForWalkable(n.children)
    decreases n, 0
  {
    var cs := n.children;
    Emit(Indent(level) + "for " + cs[1].value + " in range(" + TranslateRangeArgs(cs[5], "") + "):\n")
      .Then(Gen(cs[7], level + 1))
  }

  /** The `for ..., ... in zip(range(...), range(...))` line; the block is
      walked one level deeper. */
  function GenDoubleFor(n: Node, level: nat): Effects
    requires IsTree(n, DoubleFor) && DoubleForWalkable(n.children)
    decreases n, 0
  {
    var cs := n.children;
    Emit(Indent(level) + "for " + cs[1].value + "," + cs[3].value + " in zip(range(" +
         TranslateRangeArgs(cs[7].children[2], "") + "), range(" +
         TranslateRangeArgs(cs[9].children[2], "") + ")):\n")
      .Then(Gen(cs[11], level + 1))
  }

  /** The operand text of a movement: a bare token's own text, or the text of
      the first child of an expression. */
  function Operand(right: Node): string
    requires ArgumentReadable(right)
  {
    if right.Token? then right.value else right.children[0].value
  }

  /** One line calling the turtle method the movement command maps to. */
  function GenMove(n: Node, level: nat): Effects
    requires IsTree(n, MoveInstruction) && MoveWalkable(n.children)
    decreases n, 0
  {
    var cs := n.children;
    Emit(Indent(level) + "t." + CommandMapMove[cs[0].value] + "(" + Operand(cs[1]) + ")\n")
  }

  /** The loop step shared by every loop over children: one more child
      visited extends the effects by that child's walk, if `pass` selects it. */
  lemma GenEachSnoc(cs: seq<Node>, i: nat, pass: Pass, level: nat)
    requires WalkableEach(cs, pass)
    requires i < |cs|
    ensures Selected(cs[i], pass) ==>
      GenEach(cs[..i + 1], pass, level).writes == GenEach(cs[..i], pass, level).writes + Gen(cs[i], level).writes &&
      GenEach(cs[..i + 1], pass, level).reports == GenEach(cs[..i], pass, level).reports + Gen(cs[i], level).reports
    ensures !Selected(cs[i], pass) ==> GenEach(cs[..i + 1], pass, level) == GenEach(cs[..i], pass, level)
  {
    assert cs[..i + 1][..i] == cs[..i];
  }

  // ---------------------------------------------------------------------
  // The walk itself
  // ---------------------------------------------------------------------

  /** The file the generated program is written to: the strings written so
      far, in order. */
  class OutputFile {
    var written: seq<string>

    constructor ()
      ensures written == []
    {
      written := [];
    }

    method Write(s: string)
      modifies this
      ensures written == old(written) + [s]
    {
      written := written + [s];
    }
  }

  /** Standard output, where the walk reports every node it has no
      translation for. */
  class Console {
    var unhandled: seq<Node>

    constructor ()
      ensures unhandled == []
    {
      unhandled := [];
    }

    method ReportUnhandled(n: Node)
      modifies this
      ensures unhandled == old(unhandled) + [n]
    {
      unhandled := unhandled + [n];
    }
  }

  /** Writes the translation of `ast` at indentation `level` to `out` and
      reports untranslated nodes on `console`: exactly the effects `Gen`
      states, appended to what was there before. */
  method GeneratePythonCode(ast: Node, out: OutputFile, console: Console, level: nat)
    requires Walkable(ast)
    modifies out, console
    ensures out.written == old(out.written) + Gen(ast, level).writes
    ensures console.unhandled == old(console.unhandled) + Gen(ast, level).reports
    decreases ast, 1
  {
    match ast.data
    case Start => GenerateStart(ast, out, console);
    case FunctionDef => GenerateFunctionDef(ast, out, console, level);
    case FunctionCall => GenerateFunctionCall(ast, out, level);
    case BasicInstruction => GenerateBasicInstruction(ast, out, console, level);
    case Conditional => GenerateConditional(ast, out, console, level);
    case SingleFor => GenerateSingleFor(ast, out, console, level);
    case DoubleFor => GenerateDoubleFor(ast, out, console, level);
    case MoveInstruction => GenerateMove(ast, out, level);
    case _ => console.ReportUnhandled(ast);
  }

  lemma ConcatAssoc<T>(a: seq<T>, b: seq<T>, c: seq<T>)
    ensures a + b + c == a + (b + c)
  {
  }

  /** The loop over `cs` that walks, in order, every child `pass` selects. */
  method GenerateEach(cs: seq<Node>, pass: Pass, out: OutputFile, console: Console, level: nat)
    requires WalkableEach(cs, pass)
    modifies out, console
    ensures out.written == old(out.written) + GenEach(cs, pass, level).writes
    ensures console.unhandled == old(console.unhandled) + GenEach(cs, pass, level).reports
    decreases cs, 0
  {
    for i := 0 to |cs|
      invariant out.written == old(out.written) + GenEach(cs[..i], pass, level).writes
      invariant console.unhandled == old(console.unhandled) + GenEach(cs[..i], pass, level).reports
    {
      ghost var before := GenEach(cs[..i], pass, level);
      GenEachSnoc(cs, i, pass, level);
      var child := cs[i];
      if Selected(child, pass) {
        ghost var w0 := out.written;
        ghost var u0 := console.unhandled;
        GeneratePythonCode(child, out, console, level);
        ghost var step := Gen(child, level);
        assert out.written == w0 + step.writes;
        ConcatAssoc(old(out.written), before.writes, step.writes);
        ConcatAssoc(old(console.unhandled), before.reports, step.reports);
      }
    }
    assert cs[..|cs|] == cs;
  }

  method GenerateStart(ast: Node, out: OutputFile, console: Console)
    requires IsTree(ast, Start) && WalkableEach(ast.children, Every)
    modifies out, console
    ensures out.written == old(out.written) + GenStart(ast).writes
    ensures console.unhandled == old(console.unhandled) + GenStart(ast).reports
    decreases ast, 0
  {
    var cs := ast.children;
    ghost var w0, u0 := out.written, console.unhandled;
    ghost var defs := GenEach(cs, Definitions, 0);
    ghost var rest := GenEach(cs, Instructions, 0);
    out.Write("import turtle\n");
    out.Write("t = turtle.Turtle()\n\n");
    assert out.written == w0 + Prologue;
    // Function definitions first, then everything else, all at level 0.
    GenerateEach(cs, Definitions, out, console, 0);
    ConcatAssoc(w0, Prologue, defs.writes);
    GenerateEach(cs, Instructions, out, console, 0);
    ConcatAssoc(w0, Prologue + defs.writes, rest.writes);
    ConcatAssoc(u0, defs.reports, rest.reports);
    out.Write(Epilogue);
    ConcatAssoc(w0, Prologue + defs.writes + rest.writes, [Epilogue]);
    assert GenStart(ast) == Effects(Prologue, []).Then(defs).Then(rest).Then(Emit(Epilogue));
  }

  method GenerateFunctionDef(ast: Node, out: OutputFile, console: Console, level: nat)
    requires IsTree(ast, FunctionDef) && DefinitionWalkable(ast.children)
    modifies out, console
    ensures out.written == old(out.written) + GenFunctionDef(ast, level).writes
    ensures console.unhandled == old(console.unhandled) + GenFunctionDef(ast, level).reports
    decreases ast, 0
  {
    var cs := ast.children;
    var indent := Indent(level);
    var functionName := cs[1].value;
    var parameters := [];
    if |cs| > 4 {
      var paramList := cs[3];
      if paramList.data == ParamList {
        parameters := ParamNames(paramList.children);
      }
    }
    var header := indent + "def " + functionName + "(" + Join(parameters, ", ") + "):\n";
    out.Write(header);
    var blockNode := cs[|cs| - 1];
    ghost var body := GenEach(blockNode.children, Subtrees, level + 1);
    // The braces of the block are tokens and are skipped.
    GenerateEach(blockNode.children, Subtrees, out, console, level + 1);
    assert out.written == old(out.written) + [header] + body.writes;
    out.Write("\n");
    assert out.written == old(out.written) + [header] + body.writes + ["\n"];
  }

  method GenerateFunctionCall(ast: Node, out: OutputFile, level: nat)
    requires IsTree(ast, FunctionCall) && CallWalkable(ast.children)
    modifies out
    ensures out.written == old(out.written) + GenFunctionCall(ast, level).writes
    ensures GenFunctionCall(ast, level).reports == []
    decreases ast, 0
  {
    var cs := ast.children;
    var funcName := cs[0].value;
    var arguments: seq<string> := [];
    if |cs| > 2 {
      var argList := cs[2].children;
      for j := 0 to |argList|
        invariant arguments == ArgTexts(argList[..j])
      {
        var arg := argList[j];
        assert ArgumentReadable(arg);
        if !arg.Token? {
          arguments := arguments + [arg.children[0].value];
        }
        assert argList[..j + 1][..j] == argList[..j];
      }
      assert argList[..|argList|] == argList;
    }
    out.Write(Indent(level) + funcName + "(" + Join(arguments, ",") + ")\n");
  }

  method GenerateBasicInstruction(ast: Node, out: OutputFile, console: Console, level: nat)
    requires IsTree(ast, BasicInstruction) && BasicWalkable(ast.children)
    modifies out, console
    ensures out.written == old(out.written) + GenBasicInstruction(ast, level).writes
    ensures console.unhandled == old(console.unhandled) + GenBasicInstruction(ast, level).reports
    decreases ast, 0
  {
    var cs := ast.children;
    if cs[0].Token? {
      out.Write(Indent(level) + "t." + CommandMapPen[cs[0].value] + "()\n");
    } else {
      GenerateEach(cs, Every, out, console, level);
    }
  }

  method GenerateConditional(ast: Node, out: OutputFile, console: Console, level: nat)
    requires IsTree(ast, Conditional) && ConditionalWalkable(ast.children)
    modifies out, console
    ensures out.written == old(out.written) + GenConditional(ast, level).writes
    ensures console.unhandled == old(console.unhandled) + GenConditional(ast, level).reports
    decreases ast, 0
  {
    var cs := ast.children;
    var indent := Indent(level);
    var condition := Translate(cs[1], "");
    var header := indent + "if " + condition + ":\n";
    out.Write(header);
    GeneratePythonCode(cs[2], out, console, level + 1);
    ghost var thenPart := Emit(header).Then(Gen(cs[2], level + 1));
    assert out.written == old(out.written) + thenPart.writes;
    assert console.unhandled == old(console.unhandled) + thenPart.reports;
    if |cs| > 3 {
      out.Write(indent + "else:\n");
      GeneratePythonCode(cs[4], out, console, level + 1);
      ghost var elsePart := Emit(indent + "else:\n").Then(Gen(cs[4], level + 1));
      assert out.written == old(out.written) + thenPart.writes + elsePart.writes;
      assert console.unhandled == old(console.unhandled) + thenPart.reports + elsePart.reports;
    }
  }

  method GenerateSingleFor(ast: Node, out: OutputFile, console: Console, level: nat)
    requires IsTree(ast, SingleFor) && SingleForWalkable(ast.children)
    modifies out, console
    ensures out.written == old(out.written) + GenSingleFor(ast, level).writes
    ensures console.unhandled == old(console.unhandled) + GenSingleFor(ast, level).reports
    decreases ast, 0
  {
    var cs := ast.children;
    var loopVar := cs[1].value;
    var rangeArgs := TranslateRangeArgs(cs[5], "");
    var header := Indent(level) + "for " + loopVar + " in range(" + rangeArgs + "):\n";
    out.Write(header);
    GeneratePythonCode(cs[7], out, console, level + 1);
    assert out.written == old(out.written) + [header] + Gen(cs[7], level + 1).writes;
  }

  method GenerateDoubleFor(ast: Node, out: OutputFile, console: Console, level: nat)
    requires IsTree(ast, DoubleFor) && DoubleForWalkable(ast.children)
    modifies out, console
    ensures out.written == old(out.written) + GenDoubleFor(ast, level).writes
    ensures console.unhandled == old(console.unhandled) + GenDoubleFor(ast, level).reports
    decreases ast, 0
  {
    var cs := ast.children;
    var var1 := cs[1].value;
    var var2 := cs[3].value;
    var rangeArgs1 := TranslateRangeArgs(cs[7].children[2], "");
    var rangeArgs2 := TranslateRangeArgs(cs[9].children[2], "");
    var header := Indent(level) + "for " + var1 + "," + var2 + " in zip(range(" + rangeArgs1 +
                  "), range(" + rangeArgs2 + ")):\n";
    out.Write(header);
    GeneratePythonCode(cs[11], out, console, level + 1);
    assert out.written == old(out.written) + [header] + Gen(cs[11], level + 1).writes;
  }

  method GenerateMove(ast: Node, out: OutputFile, level: nat)
    requires IsTree(ast, MoveInstruction) && MoveWalkable(ast.children)
    modifies out
    ensures out.written == old(out.written) + GenMove(ast, level).writes
    ensures GenMove(ast, level).reports == []
    decreases ast, 0
  {
    var left, right := ast.children[0], ast.children[1];
    var value;
    if right.Token? {
      value := right.value;
    } else {
      value := right.children[0].value;
    }
    out.Write(Indent(level) + "t." + CommandMapMove[left.value] + "(" + value + ")\n");
  }
}
