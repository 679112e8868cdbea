/** `VarCheckType`: the comparison a variable requirement performs, and its one-character code. */
module VarCheckTypes {
  import opened JavaStrings

  datatype VarCheckType = BIT_SET | COOLDOWN_MINUTES | EQUAL | GREATER | SMALLER

  /** `VarCheckType.values()`: the order in which the parser tries the codes. */
  const CheckOrder: seq<VarCheckType> := [BIT_SET, COOLDOWN_MINUTES, EQUAL, GREATER, SMALLER]

  /**
   * The code written between id and value. Each code is one character that can occur neither
   * in a decimal numeral nor as the entry separator ';'.
   */
  function Code(c: VarCheckType): (code: string)
    ensures |code| == 1 && !IsDigit(code[0]) && code[0] != '-' && code[0] != ';'
  {
    match c
    case BIT_SET => "&"
    case COOLDOWN_MINUTES => "@"
    case EQUAL => "="
    case GREATER => ">"
    case SMALLER => "<"
  }

  /** The codes are pairwise distinct and every constant is tried. */
  lemma CodesDistinct(a: VarCheckType, b: VarCheckType)
    ensures Code(a) == Code(b) <==> a == b
    ensures a in CheckOrder && |CheckOrder| == 5
  {
  }
}
