/** The three constant lookup tables of the translator. */
module Tables {
  import opened SyntaxTree

  /** Movement command to turtle method. */
  const CommandMapMove: map<string, string> := map[
    "FD" := "forward", "BK" := "backward", "LT" := "left", "RT" := "right", "WIDTH" := "width"]

  /** Pen command to turtle method. */
  const CommandMapPen: map<string, string> := map["PU" := "penup", "PD" := "pendown"]

  /** Comparator, and the negation sign, to Python text. */
  const ComparisonMap: map<string, string> := map[
    "==" := "==", "!=" := "!=", "<" := "<", ">" := ">", "<=" := "<=", ">=" := ">=",
    "!" := "not "]

  /** The movement table has an entry for exactly the movement words the
      lexer accepts, each naming one of the turtle's motion methods, so the
      lookup on a lexed MOVEMENT token never fails. */
  lemma MoveTableCoversMovementWords()
    ensures CommandMapMove.Keys == MovementWords
    ensures CommandMapMove["FD"] == "forward" && CommandMapMove["BK"] == "backward"
    ensures CommandMapMove["LT"] == "left" && CommandMapMove["RT"] == "right"
    ensures CommandMapMove["WIDTH"] == "width"
  {
  }

  /** The pen table has an entry for exactly the pen words the lexer accepts. */
  lemma PenTableCoversPenWords()
    ensures CommandMapPen.Keys == PenWords
    ensures CommandMapPen["PU"] == "penup" && CommandMapPen["PD"] == "pendown"
  {
  }

  /** The comparison table is the identity on the six comparators, and maps
      the negation sign to the word `not` followed by a space. */
  lemma ComparisonMapIsIdentityOnComparators()
    ensures ComparisonMap.Keys == Comparators + {"!"}
    ensures forall op <- Comparators :: op in ComparisonMap && ComparisonMap[op] == op
    ensures ComparisonMap["!"] == "not "
  {
  }
}
