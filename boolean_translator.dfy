/** Lowering of a condition subtree (`boolean_expression`, `boolean_term`,
    `comparison`) to the text of a Python condition.

    The translator threads an accumulator through its calls, but only the
    token case, the negation branch and the binary and comparison branches
    extend it: a `boolean_expression` and a single-child `boolean_term`
    restart from an empty accumulator. As a consequence the `not ` that the
    negation branch puts into the accumulator survives only when the negated
    term is itself a binary `&&`/`||` term (or another negation that ends in
    one); otherwise the negation disappears from the output. */
module BooleanTranslator {
  import opened SyntaxTree
  import opened Tables

  /** The comparison `children[0] == "!"`: a token equals a string when its
      text does; a rule node never does. */
  predicate IsBang(n: Node) { n.Token? && n.value == "!" }

  /** The trees on which the translator returns a string instead of raising:
      a missing child, a `.type` on a rule node in the binary test, a
      comparison that is not three tokens or whose operator the table lacks. */
  predicate Translatable(n: Node)
    decreases n
  {
    match n
    case Token(_, _) => true
    case Tree(rule, cs) =>
      if rule == BooleanExpression then |cs| >= 1 && Translatable(cs[0])
      else if rule == BooleanTerm then
        if |cs| == 1 then cs[0].Token? || Translatable(cs[0])
        else if |cs| == 0 then false
        else if IsBang(cs[0]) then forall c <- cs :: Translatable(c)
        else if |cs| == 3 then
          cs[1].Token? &&
          ((cs[1].kind == AND || cs[1].kind == OR) ==> Translatable(cs[0]) && Translatable(cs[2]))
        else true
      else if rule == Comparison then
        |cs| == 3 && cs[0].Token? && cs[1].Token? && cs[2].Token? && cs[1].value in ComparisonMap
      else true
  }

  /** The text of the condition `n`, appended to `acc` where the source
      appends it. */
  function Translate(n: Node, acc: string): string
    requires Translatable(n)
    decreases n
  {
    match n
    case Token(_, value) =>
      acc + (if value in ComparisonMap then ComparisonMap[value] else value)
    case Tree(rule, cs) =>
      if rule == BooleanExpression then Translate(cs[0], "")
      else if rule == BooleanTerm then
        if |cs| == 1 then
          (if cs[0].Token? then cs[0].value else Translate(cs[0], ""))
        else if IsBang(cs[0]) then TranslateEach(cs, acc)
        else if |cs| == 3 && cs[1].kind == AND then
          acc + "(" + Translate(cs[0], "") + " and " + Translate(cs[2], "") + ")"
        else if |cs| == 3 && cs[1].kind == OR then
          acc + "(" + Translate(cs[0], "") + " or " + Translate(cs[2], "") + ")"
        else acc
      else if rule == Comparison then
        acc + cs[0].value + " " + ComparisonMap[cs[1].value] + " " + cs[2].value
      else acc
  }

  /** The negation branch's loop: each child is translated with the
      accumulator the previous one returned. */
  function TranslateEach(cs: seq<Node>, acc: string): string
    requires forall c <- cs :: Translatable(c)
    decreases cs
  {
    if cs == [] then acc else TranslateEach(cs[1..], Translate(cs[0], acc))
  }

  // ---------------------------------------------------------------------
  // Grammar-produced conditions never make the translator raise
  // ---------------------------------------------------------------------

  predicate IsBoolTerm(n: Node) { IsTree(n, BooleanTerm) && Grammatical(n) }

  /** The three shapes of a grammar-produced `boolean_term`. */
  lemma TermShapes(n: Node)
    requires IsBoolTerm(n)
    ensures var cs := n.children;
      (|cs| == 1 && Grammatical(cs[0]) && (IsTree(cs[0], Comparison) || IsTree(cs[0], BooleanTerm))) ||
      (|cs| == 2 && IsToken(cs[0], NOT) && cs[0].value == "!" && IsBoolTerm(cs[1])) ||
      (|cs| == 3 && IsBoolTerm(cs[0]) && (IsToken(cs[1], AND) || IsToken(cs[1], OR)) && IsBoolTerm(cs[2]))
  {
    var cs := n.children;
    assert RuleLayout(BooleanTerm, cs);
    if |cs| == 1 {
      ChildGrammatical(n, 0);
    } else if |cs| == 2 {
      ChildGrammatical(n, 0);
      ChildGrammatical(n, 1);
    } else {
      ChildGrammatical(n, 0);
      ChildGrammatical(n, 2);
    }
  }

  /** A grammar-produced comparison: two numbers around a comparator that
      the comparison table maps to itself. */
  lemma ComparisonShape(n: Node)
    requires Grammatical(n) && IsTree(n, Comparison)
    ensures var cs := n.children;
      |cs| == 3 && cs[0].Token? && cs[1].Token? && cs[2].Token? &&
      cs[1].value in ComparisonMap && ComparisonMap[cs[1].value] == cs[1].value
  {
    var cs := n.children;
    assert RuleLayout(Comparison, cs);
    ChildGrammatical(n, 1);
    ComparisonMapIsIdentityOnComparators();
  }

  /** Every condition subtree the parser can produce lies in the domain of
      the translator. */
  lemma GrammarGivesTranslatable(n: Node)
    requires Grammatical(n)
    requires IsTree(n, BooleanExpression) || IsTree(n, BooleanTerm) || IsTree(n, Comparison)
    ensures Translatable(n)
  {
    if n.data == BooleanExpression {
      assert RuleLayout(BooleanExpression, n.children);
      ChildGrammatical(n, 0);
      TermTranslatable(n.children[0]);
    } else if n.data == BooleanTerm {
      TermTranslatable(n);
    } else {
      ComparisonShape(n);
    }
  }

  lemma {:induction false} TermTranslatable(n: Node)
    requires IsBoolTerm(n)
    ensures Translatable(n)
    decreases n
  {
    var cs := n.children;
    TermShapes(n);
    if |cs| == 1 {
      if cs[0].data == Comparison {
        ComparisonShape(cs[0]);
      } else {
        TermTranslatable(cs[0]);
      }
    } else if |cs| == 2 {
      TermTranslatable(cs[1]);
      assert IsBang(cs[0]);
      assert forall c <- cs :: Translatable(c) by {
        assert cs == [cs[0], cs[1]];
      }
    } else {
      TermTranslatable(cs[0]);
      TermTranslatable(cs[2]);
      assert !IsBang(cs[0]) && cs[1].Token?;
    }
  }

  // ---------------------------------------------------------------------
  // The condition a term denotes, and its intended Python text
  // ---------------------------------------------------------------------

  /** The structure of a `boolean_term`: an atomic comparison, a
      parenthesised term, a negation, a conjunction or a disjunction. */
  datatype Cond =
    | Atom(left: string, op: string, right: string)
    | Group(inner: Cond)
    | Not(negated: Cond)
    | And(lhs: Cond, rhs: Cond)
    | Or(lhs: Cond, rhs: Cond)

  /** The condition a grammar-produced `boolean_term` stands for. */
  function Abstract(n: Node): Cond
    requires IsBoolTerm(n)
    decreases n
  {
    var cs := n.children;
    assert RuleLayout(BooleanTerm, cs);
    if |cs| == 1 then
      ChildGrammatical(n, 0);
      if cs[0].data == Comparison then
        var operands := cs[0].children;
        assert RuleLayout(Comparison, operands);
        Atom(operands[0].value, operands[1].value, operands[2].value)
      else Group(Abstract(cs[0]))
    else if |cs| == 2 then
      ChildGrammatical(n, 1);
      Not(Abstract(cs[1]))
    else
      ChildGrammatical(n, 0);
      ChildGrammatical(n, 2);
      if cs[1].kind == AND then And(Abstract(cs[0]), Abstract(cs[2]))
      else Or(Abstract(cs[0]), Abstract(cs[2]))
  }

  /** The intended Python condition: comparisons as written, each `&&`/`||`
      as a parenthesised `and`/`or`, and `!t` as `not (t)`, the `!` being
      Python's `not` as the comment in the comparison table of
      `hlogoc_JM.py` says. */
  function Intended(c: Cond): string
  {
    match c
    case Atom(l, op, r) => l + " " + op + " " + r
    case Group(inner) => Intended(inner)
    case Not(negated) => "not (" + Intended(negated) + ")"
    case And(lhs, rhs) => "(" + Intended(lhs) + " and " + Intended(rhs) + ")"
    case Or(lhs, rhs) => "(" + Intended(lhs) + " or " + Intended(rhs) + ")"
  }

  predicate NotFree(c: Cond)
  {
    match c
    case Atom(_, _, _) => true
    case Group(inner) => NotFree(inner)
    case Not(_) => false
    case And(lhs, rhs) => NotFree(lhs) && NotFree(rhs)
    case Or(lhs, rhs) => NotFree(lhs) && NotFree(rhs)
  }

  // ---------------------------------------------------------------------
  // Properties of the translator
  // ---------------------------------------------------------------------

  /** A comparison is its left operand, the operator and its right operand,
      separated by single spaces, appended to the accumulator. */
  lemma ComparisonText(n: Node, acc: string)
    requires Grammatical(n) && IsTree(n, Comparison)
    ensures Translatable(n)
    ensures Translate(n, acc) ==
      acc + n.children[0].value + " " + n.children[1].value + " " + n.children[2].value
  {
    GrammarGivesTranslatable(n);
    ComparisonMapIsIdentityOnComparators();
    assert Grammatical(n.children[1]);
  }

  /** A binary term is its two operands, each translated afresh and in child
      order, joined by `and` or `or` inside one pair of parentheses. */
  lemma BinaryText(n: Node, acc: string)
    requires IsBoolTerm(n) && |n.children| == 3
    ensures Translatable(n) && Translatable(n.children[0]) && Translatable(n.children[2])
    ensures Translate(n, acc) ==
      acc + "(" + Translate(n.children[0], "") +
      (if n.children[1].kind == AND then " and " else " or ") +
      Translate(n.children[2], "") + ")"
  {
    GrammarGivesTranslatable(n);
    assert !IsBang(n.children[0]);
  }

  /** The negation branch: the negated term is translated with `not `
      appended to the accumulator. A binary term keeps that prefix, a further
      negation passes it on, and an atomic or parenthesised term drops it and
      with it the caller's accumulator, yielding the un-negated text. */
  lemma NegationText(n: Node, acc: string)
    requires IsBoolTerm(n) && |n.children| == 2
    ensures Translatable(n) && Translatable(n.children[1])
    ensures var t := n.children[1];
      Translate(n, acc) ==
        if |t.children| == 3 then acc + "not " + Translate(t, "")
        else if |t.children| == 2 then Translate(t, acc + "not ")
        else Translate(t, "")
  {
    var t := n.children[1];
    NegationStep(n, acc);
    TermShapes(t);
    if |t.children| == 3 {
      BinaryText(t, acc + "not ");
      BinaryText(t, "");
    } else if |t.children| == 1 {
      SingleChildStep(t, acc + "not ");
      SingleChildStep(t, "");
    }
  }

  /** The loop of the negation branch, unrolled over its two children. */
  lemma NegationStep(n: Node, acc: string)
    requires IsBoolTerm(n) && |n.children| == 2
    ensures IsBoolTerm(n.children[1])
    ensures Translatable(n) && Translatable(n.children[1])
    ensures Translate(n, acc) == Translate(n.children[1], acc + "not ")
  {
    GrammarGivesTranslatable(n);
    var cs := n.children;
    assert RuleLayout(BooleanTerm, cs);
    ChildGrammatical(n, 0);
    ChildGrammatical(n, 1);
    assert IsBang(cs[0]);
    assert Translate(cs[0], acc) == acc + "not ";
    assert cs[1..][1..] == [];
    assert TranslateEach(cs[1..], acc + "not ") == Translate(cs[1], acc + "not ");
  }

  /** One unfolding of the translator and of the abstraction on a term with
      a single child. */
  lemma SingleChildStep(n: Node, acc: string)
    requires IsBoolTerm(n) && |n.children| == 1
    ensures Grammatical(n.children[0]) && n.children[0].Tree?
    ensures Translatable(n) && Translatable(n.children[0])
    ensures Translate(n, acc) == Translate(n.children[0], "")
    ensures IsTree(n.children[0], BooleanTerm) ==> Abstract(n) == Group(Abstract(n.children[0]))
    ensures IsTree(n.children[0], Comparison) ==> Translate(n, "") == Intended(Abstract(n))
  {
    var cs := n.children;
    SingleAbstract(n);
    TermTranslatable(n);
    GrammarGivesTranslatable(cs[0]);
    if cs[0].data == Comparison {
      ComparisonText(cs[0], "");
    }
  }

  lemma SingleAbstract(n: Node)
    requires IsBoolTerm(n) && |n.children| == 1
    ensures Grammatical(n.children[0]) && n.children[0].Tree?
    ensures IsTree(n.children[0], Comparison) || IsBoolTerm(n.children[0])
    ensures IsBoolTerm(n.children[0]) ==> Abstract(n) == Group(Abstract(n.children[0]))
    ensures IsTree(n.children[0], Comparison) ==>
      |n.children[0].children| == 3 &&
      var ops := n.children[0].children;
      Abstract(n) == Atom(ops[0].value, ops[1].value, ops[2].value)
  {
    TermShapes(n);
    if n.children[0].data == Comparison {
      ComparisonShape(n.children[0]);
    }
  }

  /** One unfolding of the translator and of the abstraction on a binary term. */
  lemma BinaryStep(n: Node)
    requires IsBoolTerm(n) && |n.children| == 3
    ensures IsBoolTerm(n.children[0]) && IsBoolTerm(n.children[2])
    ensures Translatable(n) && Translatable(n.children[0]) && Translatable(n.children[2])
    ensures Abstract(n) ==
      if n.children[1].kind == AND then And(Abstract(n.children[0]), Abstract(n.children[2]))
      else Or(Abstract(n.children[0]), Abstract(n.children[2]))
    ensures Translate(n, "") ==
      "(" + Translate(n.children[0], "") +
      (if n.children[1].kind == AND then " and " else " or ") +
      Translate(n.children[2], "") + ")"
  {
    BinaryAbstract(n);
    BinaryText(n, "");
  }

  lemma BinaryAbstract(n: Node)
    requires IsBoolTerm(n) && |n.children| == 3
    ensures IsBoolTerm(n.children[0]) && IsBoolTerm(n.children[2])
    ensures Abstract(n) ==
      if n.children[1].kind == AND then And(Abstract(n.children[0]), Abstract(n.children[2]))
      else Or(Abstract(n.children[0]), Abstract(n.children[2]))
  {
    TermShapes(n);
  }

  /** A condition without negation translates to exactly its intended
      Python text: the grouping of the tree is kept, every binary operator in
      its own parentheses. */
  lemma {:induction false} NegationFreeTermIsIntended(n: Node)
    requires IsBoolTerm(n) && NotFree(Abstract(n))
    ensures Translatable(n)
    ensures Translate(n, "") == Intended(Abstract(n))
    decreases n
  {
    var cs := n.children;
    assert RuleLayout(BooleanTerm, cs);
    if |cs| == 1 {
      SingleChildStep(n, "");
      if cs[0].data == BooleanTerm {
        NegationFreeTermIsIntended(cs[0]);
      }
    } else {
      assert |cs| == 3;
      BinaryStep(n);
      NegationFreeTermIsIntended(cs[0]);
      NegationFreeTermIsIntended(cs[2]);
    }
  }

  /** A negated comparison, such as `!1==1`: the intended text is
      `not (1 == 1)`, but the negated term has a single child, so the
      translator restarts from an empty accumulator and the `not ` (and
      whatever the caller had accumulated) is dropped, leaving the bare
      comparison. */
  lemma NegatedComparisonLosesNegation(n: Node, acc: string)
    requires IsBoolTerm(n) && |n.children| == 2
    requires |n.children[1].children| == 1 && IsTree(n.children[1].children[0], Comparison)
    ensures Translatable(n) && Translatable(n.children[1].children[0])
    ensures Translate(n, acc) == Translate(n.children[1].children[0], "")
    ensures Intended(Abstract(n)) == "not (" + Translate(n, acc) + ")"
  {
    var t := n.children[1];
    NegationText(n, acc);
    SingleChildStep(t, "");
    assert Abstract(n) == Not(Abstract(t)) by {
      assert RuleLayout(BooleanTerm, n.children);
    }
  }

  /** A negated binary term, such as `!` applied to the `&&` term of `1==1`
      and `2<3`, keeps its negation:
      `not ` followed by the parenthesised text of the negation-free
      operand, appended to the caller's accumulator. */
  lemma NegatedBinaryKeepsNegation(n: Node, acc: string)
    requires IsBoolTerm(n) && |n.children| == 2
    requires |n.children[1].children| == 3
    requires IsBoolTerm(n.children[1]) && NotFree(Abstract(n.children[1]))
    ensures Translatable(n)
    ensures Translate(n, acc) == acc + "not " + Intended(Abstract(n.children[1]))
  {
    NegationText(n, acc);
    NegationFreeTermIsIntended(n.children[1]);
  }

  /** A `boolean_expression` translates to the text of its term, whatever
      the caller had accumulated. */
  lemma ConditionText(n: Node, acc: string)
    requires Grammatical(n) && IsTree(n, BooleanExpression)
    ensures IsBoolTerm(n.children[0]) && Translatable(n) && Translatable(n.children[0])
    ensures Translate(n, acc) == Translate(n.children[0], "")
  {
    assert RuleLayout(BooleanExpression, n.children);
    ChildGrammatical(n, 0);
    GrammarGivesTranslatable(n);
  }

  /** Building blocks of grammar-produced conditions. */
  lemma ComparisonGrammatical(left: string, op: string, right: string)
    requires op in Comparators
    ensures Grammatical(Tree(Comparison, [Token(INTNUM, left), Token(COMPARATOR, op), Token(INTNUM, right)]))
  {
    var cs := [Token(INTNUM, left), Token(COMPARATOR, op), Token(INTNUM, right)];
    assert RuleLayout(Comparison, cs);
    assert forall c <- cs :: Grammatical(c);
  }

  lemma GroupGrammatical(c: Node)
    requires Grammatical(c) && (IsTree(c, Comparison) || IsTree(c, BooleanTerm))
    ensures IsBoolTerm(Tree(BooleanTerm, [c]))
  {
    assert RuleLayout(BooleanTerm, [c]);
    assert forall d <- [c] :: Grammatical(d);
  }

  lemma NegationGrammatical(t: Node)
    requires IsBoolTerm(t)
    ensures IsBoolTerm(Tree(BooleanTerm, [Token(NOT, "!"), t]))
  {
    var cs := [Token(NOT, "!"), t];
    assert RuleLayout(BooleanTerm, cs);
    assert Grammatical(cs[0]);
    assert forall d <- cs :: Grammatical(d);
  }

  /** The term `!1==1`: the translator yields `1 == 1`. */
  lemma NegatedOneEqualsOne()
    ensures var t := Tree(BooleanTerm, [Token(NOT, "!"), Tree(BooleanTerm, [Tree(Comparison, [Token(INTNUM, "1"), Token(COMPARATOR, "=="), Token(INTNUM, "1")])])]);
      IsBoolTerm(t) && Translatable(t) && Translate(t, "") == "1 == 1"
  {
    var c := Tree(Comparison, [Token(INTNUM, "1"), Token(COMPARATOR, "=="), Token(INTNUM, "1")]);
    ComparisonGrammatical("1", "==", "1");
    GroupGrammatical(c);
    NegationGrammatical(Tree(BooleanTerm, [c]));
    var t := Tree(BooleanTerm, [Token(NOT, "!"), Tree(BooleanTerm, [c])]);
    NegatedComparisonLosesNegation(t, "");
    ComparisonText(c, "");
  }
}
