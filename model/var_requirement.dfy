/** `VarRequirement`: a check of one varbit or varplayer value against a constant. */
module VarRequirements {
  import opened JavaStrings
  import opened JavaInts
  import opened VarCheckTypes

  datatype VarType = VARBIT | VARPLAYER

  datatype VarRequirement = VarRequirement(varType: VarType, id: Int32, value: Int32, checkType: VarCheckType)
  {
    predicate IsVarbit() { varType == VARBIT }
    predicate IsVarPlayer() { varType == VARPLAYER }
  }

  /**
   * `check(values)`: false when the id has no current value; otherwise the comparison of the
   * current value with `value`. `nowMinutes` is `System.currentTimeMillis() / 60000`.
   */
  function Check(r: VarRequirement, values: map<int, Int32>, nowMinutes: int): (ok: bool)
    ensures r.id !in values ==> !ok
    ensures r.id in values && r.checkType == EQUAL ==> (ok <==> values[r.id] == r.value)
    ensures r.id in values && r.checkType == GREATER ==> (ok <==> values[r.id] > r.value)
    ensures r.id in values && r.checkType == SMALLER ==> (ok <==> values[r.id] < r.value)
    ensures r.id in values && r.checkType == COOLDOWN_MINUTES ==> (ok <==> nowMinutes - values[r.id] > r.value)
  {
    if r.id !in values then false
    else
      var current := values[r.id];
      match r.checkType
      case EQUAL => current == r.value
      case GREATER => current > r.value
      case SMALLER => current < r.value
      case BIT_SET => And32(current, r.value) > 0
      case COOLDOWN_MINUTES => nowMinutes - current > r.value
  }

  /** With a non-negative mask, BIT_SET holds iff the current value has one of the mask's bits. */
  lemma BitSetMeansSharedBit(r: VarRequirement, values: map<int, Int32>, nowMinutes: int)
    requires r.checkType == BIT_SET && r.id in values && r.value >= 0
    ensures Check(r, values, nowMinutes) <==> ShareBit(Unsigned(values[r.id]), r.value, 32)
  {
    AndPositiveIffSharedBit(values[r.id], r.value);
  }

  /** Exactly one of `isVarbit` and `isVarPlayer` holds. */
  lemma KindIsExclusive(r: VarRequirement)
    ensures r.IsVarbit() != r.IsVarPlayer()
  {
  }

  /** `equals`: all four fields agree. */
  predicate Equals(a: VarRequirement, b: VarRequirement) {
    a.id == b.id && a.value == b.value && a.varType == b.varType && a.checkType == b.checkType
  }

  /**
   * `hashCode`, with 32-bit wrap-around. The enum constants' own hash codes are identity hashes
   * and are passed in.
   */
  function HashCode(r: VarRequirement, varTypeHash: VarType -> Int32, checkTypeHash: VarCheckType -> Int32): Int32 {
    var h := varTypeHash(r.varType);
    var h1 := Wrap32(31 * h + r.id);
    var h2 := Wrap32(31 * h1 + r.value);
    Wrap32(31 * h2 + checkTypeHash(r.checkType))
  }

  /** `equals` is value equality, and equal requirements hash alike. */
  lemma EqualsIsValueEquality(a: VarRequirement, b: VarRequirement, vh: VarType -> Int32, ch: VarCheckType -> Int32)
    ensures Equals(a, b) <==> a == b
    ensures Equals(a, b) ==> HashCode(a, vh, ch) == HashCode(b, vh, ch)
  {
  }
}
