/** Lowering of a `range_args` node to the argument text of Python's
    `range(...)`: the texts of its tokens, commas included, in child order.
    No arithmetic is done; the numbers are copied as written. */
module RangeTranslator {
  import opened SyntaxTree

  /** The inputs the translator handles: a token, or a `range_args` node
      whose children are tokens (as the grammar makes them). */
  predicate RangeInput(n: Node)
  {
    n.Token? || (IsTree(n, RangeArgs) && forall c <- n.children :: c.Token?)
  }

  /** A token translates to its own text; a `range_args` node to the texts of
      its children appended, in order, to the accumulator. */
  function TranslateRangeArgs(n: Node, acc: string): string
    requires RangeInput(n)
    decreases n
  {
    if n.Token? then n.value else AppendEach(n.children, acc)
  }

  /** The loop over the children of a `range_args` node: each child's
      translation is appended to the accumulator. */
  function AppendEach(cs: seq<Node>, acc: string): string
    requires forall c <- cs :: c.Token?
    decreases cs
  {
    if cs == [] then acc
    else AppendEach(cs[1..], acc + TranslateRangeArgs(cs[0], acc))
  }

  /** The texts of a sequence of tokens, joined with nothing between them. */
  function TokenText(cs: seq<Node>): string
    requires forall c <- cs :: c.Token?
  {
    if cs == [] then "" else cs[0].value + TokenText(cs[1..])
  }

  /** The loop appends exactly the concatenated token texts to whatever the
      accumulator held. */
  lemma {:induction false} AppendEachIsTokenText(cs: seq<Node>, acc: string)
    requires forall c <- cs :: c.Token?
    ensures AppendEach(cs, acc) == acc + TokenText(cs)
    decreases cs
  {
    if cs != [] {
      AppendEachIsTokenText(cs[1..], acc + cs[0].value);
    }
  }

  /** A grammar-produced `range_args` node translates to its own text: one,
      two or three numbers copied verbatim, in order, separated by commas. */
  lemma RangeArgsPassThrough(n: Node)
    requires Grammatical(n) && IsTree(n, RangeArgs)
    ensures RangeInput(n)
    ensures TranslateRangeArgs(n, "") == TokenText(n.children)
    ensures var cs := n.children;
      (|cs| == 1 ==> TranslateRangeArgs(n, "") == cs[0].value) &&
      (|cs| == 3 ==> TranslateRangeArgs(n, "") == cs[0].value + ("," + cs[2].value)) &&
      (|cs| == 5 ==>
        TranslateRangeArgs(n, "") == cs[0].value + ("," + (cs[2].value + ("," + cs[4].value))))
  {
    RangeArgsShape(n);
    AppendEachIsTokenText(n.children, "");
    NumbersAndCommas(n.children);
  }

  /** The children of a grammar-produced `range_args` node: numbers at even
      positions, commas (whose text is ",") at odd positions. */
  lemma RangeArgsShape(n: Node)
    requires Grammatical(n) && IsTree(n, RangeArgs)
    ensures CommaSeparated(n.children)
  {
    var cs := n.children;
    assert RuleLayout(RangeArgs, cs);
    forall i | 0 <= i < |cs| && i % 2 == 1 ensures cs[i].value == "," {
      assert IsToken(cs[i], COMMA);
      ChildGrammatical(n, i);
    }
  }

  predicate CommaSeparated(cs: seq<Node>)
  {
    (|cs| == 1 || |cs| == 3 || |cs| == 5) &&
    (forall c <- cs :: c.Token?) &&
    forall i | 0 <= i < |cs| && i % 2 == 1 :: cs[i].value == ","
  }

  lemma NumbersAndCommas(cs: seq<Node>)
    requires CommaSeparated(cs)
    ensures |cs| == 1 ==> TokenText(cs) == cs[0].value
    ensures |cs| == 3 ==> TokenText(cs) == cs[0].value + ("," + cs[2].value)
    ensures |cs| == 5 ==> TokenText(cs) == cs[0].value + ("," + (cs[2].value + ("," + cs[4].value)))
  {
    TailText(cs, |cs| - 1);
    TokenTextStep(cs, 0);
    if |cs| >= 3 {
      TokenTextStep(cs, 1);
    }
    if |cs| == 5 {
      TokenTextStep(cs, 2);
      TokenTextStep(cs, 3);
    }
  }

  /** The text of the last token alone. */
  lemma TailText(cs: seq<Node>, i: nat)
    requires forall c <- cs :: c.Token?
    requires i == |cs| - 1
    ensures TokenText(cs[i..]) == cs[i].value
  {
    assert cs[i..][1..] == [];
  }

  lemma TokenTextStep(cs: seq<Node>, i: nat)
    requires forall c <- cs :: c.Token?
    requires i < |cs|
    ensures TokenText(cs[i..]) == cs[i].value + TokenText(cs[i + 1..])
    ensures i == 0 ==> TokenText(cs) == cs[0].value + TokenText(cs[1..])
  {
    assert cs[i..][1..] == cs[i + 1..];
    assert cs[0..] == cs;
  }

  /** A token translates to its own text, whatever the accumulator holds. */
  lemma TokenPassThrough(n: Node, acc: string)
    requires n.Token?
    ensures RangeInput(n) && TranslateRangeArgs(n, acc) == n.value
  {
  }
}
