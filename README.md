# High-LOGO to Python translator: a verified model of the code generator

`hlogoc_JM.py` translates programs in High-LOGO, a small turtle-graphics
language, into Python that drives the `turtle` module. A parser built from the
grammar in the file produces a syntax tree, and `generate_python_code` walks
that tree and writes Python lines to the output file. Conditions are lowered by
`translate_boolean_expression` and loop bounds by `translate_range_args`.

This project models that translation core in Dafny:

- `syntax_tree.dfy` (module `SyntaxTree`) holds the syntax tree: a rule node
  with children, or a token with its terminal kind and text. It also holds the
  grammar's layout of children for every rule (`RuleLayout`), the lexemes each
  fixed terminal can have, and `Grammatical`, which marks the trees the parser
  can produce.
- `tables.dfy` (module `Tables`) holds the three lookup tables: movement
  commands, pen commands, and comparison operators.
- `boolean_translator.dfy` (module `BooleanTranslator`) holds the condition
  translator. `Translatable` is exactly the set of trees on which it returns
  instead of raising. `Abstract` and `Intended` give the intended Python
  condition: each `&&`/`||` as a parenthesised `and`/`or`, and `!t` as
  `not (t)`, `!` being Python's `not` as the comment at hlogoc_JM.py:108
  says. The two can then be compared.
- `range_translator.dfy` (module `RangeTranslator`) holds the range-argument
  translator.
- `code_generator.dfy` (module `CodeGenerator`) holds the generator. `Gen`
  gives the effects of walking a node: the lines written and the nodes
  reported as unhandled. The walk itself is the method `GeneratePythonCode`. It
  writes through an `OutputFile` object and reports through a `Console`
  object, and each method is proved to produce exactly the effects `Gen`
  describes. `Walkable` is the set of trees on which the walk does not raise,
  apart from the two range-argument inputs listed under "## Left out", which
  it excludes although the Python does not raise on them.
- `generator_properties.dfy` (module `GeneratorProperties`) holds what is
  proved about the walk over trees the parser produces.

The walk, as the code does it:

- The root writes the two import lines first. It then walks the function
  definitions, then every other child, all at indentation level 0, and
  finally writes the `turtle.mainloop()` line.
- A block (`{ ... }`) has no branch of its own in the generator. A conditional
  or a loop therefore writes only its header line. Its block falls through to
  the "no implementation" message and none of the block is written. Only a
  function definition walks the instructions inside its block.
- A function definition is walked only when it has exactly one parameter.
  With none, the code asks a token for `.data`. With two or more, the
  parameter list holds an `expression` subtree, and asking it for `.type`
  raises.
- A function call is walked only when it has arguments. Without them, the
  code asks the closing-parenthesis token for `.children`.

The intended text of a negation `!t` is `not (t)`. The code instead passes
`not ` to the negated term as the accumulator. A binary term appends to that
accumulator, but an atomic or parenthesised term starts again from an empty
string. So the tree for `!` applied to the comparison `1==1` becomes
`1 == 1`. The tree for `!` applied to the `&&` term of `1==1` and `2<3`
becomes `not (1 == 1 and 2 < 3)`. The model follows the code, and the lemmas
`NegatedComparisonLosesNegation` and `NegatedBinaryKeepsNegation` state both
outcomes.

## Model

| member | source | states |
|---|---|---|
| Tables.MoveTableCoversMovementWords | hlogoc_JM.py:86-92 | the movement table's keys are exactly the five MOVEMENT words of the lexer, mapped to forward, backward, left, right and width |
| Tables.PenTableCoversPenWords | hlogoc_JM.py:95-98 | the pen table's keys are exactly the PEN words `PU` and `PD`, mapped to penup and pendown |
| Tables.ComparisonMapIsIdentityOnComparators | hlogoc_JM.py:101-109 | the comparison table maps each of the six comparators to itself, and `!` to `not ` |
| SyntaxTree.LexemeOk | hlogoc_JM.py:58-79 | defines the tokens the lexer can produce: each keyword and punctuation terminal has its one fixed text, MOVEMENT, PEN and COMPARATOR have one of their listed words, and NAME, VAR and INTNUM carry any text |
| SyntaxTree.RuleLayout | hlogoc_JM.py:14-56 | defines, for each grammar rule, the children a node of that rule has: the named terminals and subrules in order, with optional parts and repetitions, and the unnamed parentheses of `boolean_expression` and `boolean_term` dropped as the parser drops them |
| SyntaxTree.Grammatical | hlogoc_JM.py:14-79 | defines the trees the parser can produce: every rule node has its rule's layout of children and every token is a lexeme of its terminal, throughout the tree |
| SyntaxTree.ChildGrammatical | hlogoc_JM.py:14-56 | every child of a tree the grammar derives is itself derivable |
| BooleanTranslator.Translatable | hlogoc_JM.py:113-148 | the trees on which the condition translator returns instead of raising: a token; a `boolean_expression` with a first child; a `boolean_term` with a single child that is a token or translatable, or one that starts with `!` and has translatable children, or has a token in the middle of three children (with translatable operands when it is `AND`/`OR`), or any other non-empty shape (which falls through to the final return); a comparison of three tokens whose operator is in the table |
| BooleanTranslator.Translate | hlogoc_JM.py:111-150 | defines the condition text: a token appends its table-mapped text to the accumulator; a `boolean_expression` restarts from an empty accumulator; a one-child term returns the token's text or the child's fresh translation; a `!` term runs the negation loop; `AND`/`OR` append `(L and R)`/`(L or R)`; a comparison appends `left op right`; any other shape returns the accumulator |
| BooleanTranslator.TranslateEach | hlogoc_JM.py:128-129 | defines the negation loop: each child is translated with the accumulator the previous child returned |
| BooleanTranslator.TermShapes | hlogoc_JM.py:46-50 | a derived `boolean_term` is a comparison or parenthesised term, `!` and a term, or two terms around `&&`/`||` |
| BooleanTranslator.ComparisonShape | hlogoc_JM.py:145-148 | a derived comparison is three tokens whose operator is in the comparison table and maps to itself |
| BooleanTranslator.GrammarGivesTranslatable | hlogoc_JM.py:111-150 | the condition translator never raises on a derived `boolean_expression`, `boolean_term` or `comparison` |
| BooleanTranslator.TermTranslatable | hlogoc_JM.py:120-143 | the term branch never raises on a derived `boolean_term`, by induction over its nesting |
| BooleanTranslator.ComparisonText | hlogoc_JM.py:145-148 | a comparison appends `left op right`, single-space separated, to the accumulator |
| BooleanTranslator.BinaryText | hlogoc_JM.py:131-143 | a binary term appends `(L and R)` or `(L or R)`, each operand translated from an empty accumulator |
| BooleanTranslator.NegationText | hlogoc_JM.py:126-129 | a negation translates its term with `not ` appended to the accumulator: kept before a binary term, passed on to a nested negation, dropped with the accumulator before an atomic or parenthesised term |
| BooleanTranslator.NegationStep | hlogoc_JM.py:127-129 | the loop over `!` and the term equals translating the term with accumulator `acc + "not "` |
| BooleanTranslator.SingleChildStep | hlogoc_JM.py:121-124 | a one-child term ignores the accumulator and translates its child afresh; over a comparison this is the intended text |
| BooleanTranslator.BinaryStep | hlogoc_JM.py:131-143 | the text and the abstract condition of a binary term are built from those of its operands |
| BooleanTranslator.NegationFreeTermIsIntended | hlogoc_JM.py:111-150 | every derived term without `!` translates to exactly the intended text: comparisons as written, each `and`/`or` in its own parentheses, the tree's grouping kept |
| BooleanTranslator.NegatedComparisonLosesNegation | hlogoc_JM.py:126-129 | `!` before a comparison yields the bare comparison text, for every accumulator, while the intended text is `not (...)` of it |
| BooleanTranslator.NegatedBinaryKeepsNegation | hlogoc_JM.py:126-136 | `!` before a negation-free binary term appends `not ` and the term's intended text to the accumulator |
| BooleanTranslator.ConditionText | hlogoc_JM.py:117-118 | a `boolean_expression` translates to its term's text and discards the accumulator |
| BooleanTranslator.ComparisonGrammatical | hlogoc_JM.py:52 | two numbers around any comparator form a derivable comparison |
| BooleanTranslator.GroupGrammatical | hlogoc_JM.py:46-50 | wrapping a comparison or a term gives a derivable one-child term |
| BooleanTranslator.NegationGrammatical | hlogoc_JM.py:47 | `!` before a derivable term gives a derivable term |
| BooleanTranslator.NegatedOneEqualsOne | hlogoc_JM.py:126-129 | the derivable term `!1==1` translates to `1 == 1` |
| RangeTranslator.TranslateRangeArgs | hlogoc_JM.py:152-160 | defines the range text: a token gives its own text, a `range_args` node runs the loop over its children from the given accumulator |
| RangeTranslator.AppendEach | hlogoc_JM.py:158-159 | defines the `+=` loop: each child's translation is appended to the accumulator |
| RangeTranslator.AppendEachIsTokenText | hlogoc_JM.py:157-160 | the loop over the children appends their texts, in order, to whatever the accumulator held |
| RangeTranslator.RangeArgsShape | hlogoc_JM.py:40-42 | derived range arguments are one, two or three tokens, with a comma token between each pair |
| RangeTranslator.NumbersAndCommas | hlogoc_JM.py:40-42 | the joined text of such a sequence is the numbers separated by `,` |
| RangeTranslator.RangeArgsPassThrough | hlogoc_JM.py:152-160 | a derived `range_args` translates, without raising, to its own text: `a`, `a,b` or `a,b,c`, copied verbatim |
| RangeTranslator.TokenPassThrough | hlogoc_JM.py:154-155 | a token translates to its own text, whatever the accumulator |
| CodeGenerator.Walkable | hlogoc_JM.py:163-246 | the trees on which the walk does not raise: not a token; the root with walkable children; a definition with a name token whose fourth child, when it has more than four children, is a rule node (a parameter list holding only tokens), and whose last child's rule-node children are walkable; a call with a name token whose third child, when it has more than two children, is a rule node of readable arguments; a pen instruction whose word is in the pen table, or an instruction whose children are walkable; a conditional with a translatable condition and walkable branches; loops with variable tokens, range arguments that are a token or a `range_args` node of tokens, and a walkable block; a move of two children with a tabled command and a readable operand; any other rule (the fallback) |
| CodeGenerator.Gen | hlogoc_JM.py:163-246 | defines the effects of walking a node at a level, branch by branch: the lines each branch writes, in order, and the nodes the fallback reports; the children of the root are walked at level 0 and block contents one level deeper |
| CodeGenerator.Indent | hlogoc_JM.py:164 | the indentation of level `k` is exactly `4k` spaces |
| CodeGenerator.OutputFile.Write | hlogoc_JM.py:167-168 | a write appends its line to the file's contents and changes nothing else |
| CodeGenerator.Console.ReportUnhandled | hlogoc_JM.py:245-246 | a node with no emission rule is appended to the console's log |
| CodeGenerator.GenEachSnoc | hlogoc_JM.py:171-178 | visiting one more child extends the loop's effects by that child's walk if the pass selects it, and leaves them unchanged otherwise |
| CodeGenerator.GeneratePythonCode | hlogoc_JM.py:163-246 | on a tree it does not raise on, the walk appends exactly the lines `Gen` gives to the file and reports exactly the nodes `Gen` gives to the console |
| CodeGenerator.GenerateEach | hlogoc_JM.py:171-178 | the loop over children walks, in order, exactly the children the pass selects |
| CodeGenerator.GenerateStart | hlogoc_JM.py:166-180 | the root writes the two import lines, walks the definitions, then the other children at level 0, then writes the mainloop line |
| CodeGenerator.GenerateFunctionDef | hlogoc_JM.py:182-196 | writes the `def` header, walks the block's rule-node children one level deeper, then writes a blank line |
| CodeGenerator.GenerateFunctionCall | hlogoc_JM.py:198-206 | writes one call line built from the arguments collected by the loop, and reports nothing |
| CodeGenerator.GenerateBasicInstruction | hlogoc_JM.py:208-213 | a pen token writes its `t.penup()` or `t.pendown()` line; otherwise every child is walked at the same level |
| CodeGenerator.GenerateConditional | hlogoc_JM.py:215-221 | writes the `if` line with the translated condition, walks the then-block, and, with an else branch, writes `else:` and walks the else-block |
| CodeGenerator.GenerateSingleFor | hlogoc_JM.py:223-227 | writes the `for v in range(...)` line with the translated arguments and walks the block one level deeper |
| CodeGenerator.GenerateDoubleFor | hlogoc_JM.py:229-235 | writes the `for v,w in zip(range(...), range(...))` line and walks the block one level deeper |
| CodeGenerator.GenerateMove | hlogoc_JM.py:237-243 | writes one `t.<method>(<value>)` line with the mapped command and the operand's text, and reports nothing |
| GeneratorProperties.FilterKeepsSelected | hlogoc_JM.py:171-178 | the children a loop visits are exactly the children its pass selects, both ways |
| GeneratorProperties.GenEachWalksFiltered | hlogoc_JM.py:171-178 | a selective loop has the same effects as walking the selected children, in order |
| GeneratorProperties.PassesPartitionChildren | hlogoc_JM.py:170-178 | the two root loops together visit every child exactly once |
| GeneratorProperties.RootPassesPartitionChildren | hlogoc_JM.py:170-178 | the first root loop visits only definitions, the second only non-definitions, and together they visit every child exactly once |
| GeneratorProperties.RootWritesDefinitionsFirst | hlogoc_JM.py:166-180 | the program text is the prologue, every definition, every other instruction in its order, then the epilogue, all at level 0 |
| GeneratorProperties.ProgramTextFraming | hlogoc_JM.py:166-180 | the generated text always begins with the two import lines and ends with the mainloop line |
| GeneratorProperties.PrologueText | hlogoc_JM.py:167-168 | the two opening writes concatenate to `import turtle`, `t = turtle.Turtle()` and a blank line |
| GeneratorProperties.EpilogueText | hlogoc_JM.py:180 | the closing write is a blank line followed by `turtle.mainloop()` |
| GeneratorProperties.MoveInstructionLine | hlogoc_JM.py:237-243 | every derived move instruction is walked and writes `t.<method>(<operand>)`, whose method is one of the five motion methods |
| GeneratorProperties.PenLine | hlogoc_JM.py:208-210 | every derived pen instruction is walked and writes `t.penup()` for `PU` and `t.pendown()` for `PD` |
| GeneratorProperties.BasicInstructionTransparent | hlogoc_JM.py:211-213 | a `basic_instruction` over a subtree raises exactly when that subtree does, and otherwise has exactly its effects |
| GeneratorProperties.CallsNeedArguments | hlogoc_JM.py:198-206 | a derived function call is walked if and only if it has an argument list |
| GeneratorProperties.DefinitionsNeedOneParameter | hlogoc_JM.py:182-196 | a derived definition is walked if and only if it has exactly one parameter and its body's instructions are walked |
| GeneratorProperties.AlternatingIsReadable | hlogoc_JM.py:203-205 | every entry of an argument list, whether an expression or a comma, can be read by the loop |
| GeneratorProperties.ArgTextsAreExpressionTexts | hlogoc_JM.py:201-205 | the collected arguments are the texts of the expressions, in order, with the commas skipped |
| GeneratorProperties.FunctionCallLine | hlogoc_JM.py:198-206 | a derived call with arguments writes `name(a1,a2,...)` with each argument's text, in order |
| GeneratorProperties.BlockInstructions | hlogoc_JM.py:192-195 | a block's rule-node children are exactly what lies between its braces, all basic instructions |
| GeneratorProperties.FunctionDefText | hlogoc_JM.py:182-196 | a walked definition writes `def name(param):`, then its body's instructions in order one level deeper, then a blank line |
| GeneratorProperties.DefinitionShape | hlogoc_JM.py:183-189 | a walked definition has six children, and its one parameter is what the header lists |
| GeneratorProperties.BlockBody | hlogoc_JM.py:192-195 | the body loop walks exactly the instructions between the braces |
| GeneratorProperties.BlockIsReported | hlogoc_JM.py:245-246 | a block reaches the fallback: it writes nothing and is reported |
| GeneratorProperties.ConditionalWritesHeaderOnly | hlogoc_JM.py:215-221 | every derived conditional is walked, writes its `if` line and, with an else branch, its `else:` line, and its blocks are reported, not written |
| GeneratorProperties.ConditionalText | hlogoc_JM.py:215-221 | the effects of a conditional whose branches are blocks: the header lines written, the blocks reported |
| GeneratorProperties.ConditionWithoutNegationIsIntended | hlogoc_JM.py:215-217 | a conditional whose condition has no `!` writes the intended `if` line |
| GeneratorProperties.SingleForWritesHeaderOnly | hlogoc_JM.py:223-227 | every derived single loop is walked, writes `for v in range(<args as written>):`, and its block is reported |
| GeneratorProperties.RangeExprArgs | hlogoc_JM.py:232-233 | the third child of a derived `range_expr` is its range arguments, which translate to their own text |
| GeneratorProperties.DoubleForWritesHeaderOnly | hlogoc_JM.py:229-235 | every derived double loop is walked, writes its `zip(range(..), range(..))` header with both argument texts, and its block is reported |
| GeneratorProperties.GenIndented | hlogoc_JM.py:163-164 | every line a derived node other than the root writes at level `k` is a blank line or starts with `4k` spaces |
| GeneratorProperties.GenEachIndented | hlogoc_JM.py:193-195 | every line written by a loop over children at level `k` is indented by at least `k` levels |
| GeneratorProperties.DefinitionIndented | hlogoc_JM.py:190-196 | a definition's header is at its level and its body one level deeper, so all its lines are indented by at least its level |

## Left out

- Parsing: the parser that turns source text into a tree is not modelled.
  `Grammatical` instead describes the trees it can produce: the layout of
  children for each rule and the fixed text of each keyword terminal.
- Lexer regular expressions: the NAME, VAR and INTNUM patterns and the
  whitespace and comment handling are not modelled. Those tokens carry any
  text.
- Command line and file I/O: reading `sys.argv`, opening the files, and the
  error exits are not modelled. The output file is the `OutputFile` object,
  whose contents are the sequence of lines written to it.
- Diagnostics: printing the parse tree and the pydot rendering are not
  modelled.
- CodeGenerator.Console.ReportUnhandled: the fallback's message logs the
  unhandled node itself. The text of a tree's printed form is not modelled.
- The turtle runtime and the behaviour of the generated Python program are
  not modelled. The model states the text written, not what that text does.
- RangeTranslator.TranslateRangeArgs: it is defined only on a token or on a
  `range_args` node whose children are all tokens, which is what the grammar
  produces. Two other inputs are not modelled. A nested `range_args` child
  would make the Python double its accumulator. Any other node makes the
  Python return `None`.
- Exceptions: a tree on which the Python raises (`AttributeError`,
  `KeyError`, or an index or unpacking error) is excluded by the
  preconditions `Walkable` and `Translatable`. These preconditions are
  written to match, branch by branch, the conditions under which the Python
  returns normally, apart from the two range-argument inputs above, which
  `Walkable` excludes. The lemmas above characterise which derived trees meet
  them. The exception itself is not modelled as a value.
