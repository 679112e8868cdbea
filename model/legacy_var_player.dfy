/**
 * The legacy `TransportVarCheck` operators and the legacy `TransportVarPlayer` check. Unlike the
 * current `VarRequirement`, the legacy check unboxes `values.get(id)` without a null test, so a
 * missing id is a fault: that is its precondition here.
 */
module LegacyVarPlayers {
  import opened JavaStrings
  import VarCheckTypes
  import VarRequirements

  datatype TransportVarCheck = EQUAL | GREATER | SMALLER | TIME_EXCEEDS

  /** `TransportVarCheck.values()`: the order in which the legacy parser tries the codes. */
  const CheckOrder: seq<TransportVarCheck> := [EQUAL, GREATER, SMALLER, TIME_EXCEEDS]

  const TIME_EXCEEDS_CODE: string := "@time_exceeds@"

  /** `getCode()`. */
  function Code(c: TransportVarCheck): (code: string)
    ensures |code| >= 1 && !IsDigit(code[0]) && code[0] != '-' && code[0] != '+' && code[0] != ';'
    ensures |code| == 1 <==> c != TIME_EXCEEDS
  {
    match c
    case EQUAL => "="
    case GREATER => ">"
    case SMALLER => "<"
    case TIME_EXCEEDS => TIME_EXCEEDS_CODE
  }

  /**
   * The codes are pairwise distinct, their first characters too, and the long code mentions none
   * of the one-character codes, so the earlier codes never split an entry written with it.
   */
  lemma CodesDistinct(a: TransportVarCheck, b: TransportVarCheck)
    ensures Code(a) == Code(b) <==> a == b
    ensures Code(a)[0] == Code(b)[0] <==> a == b
    ensures a in CheckOrder && |CheckOrder| == 4
    ensures a != TIME_EXCEEDS ==> Avoids(TIME_EXCEEDS_CODE, Code(a)[0])
  {
    if a != TIME_EXCEEDS {
      forall i | 0 <= i < |TIME_EXCEEDS_CODE|
        ensures TIME_EXCEEDS_CODE[i] != Code(a)[0]
      {
      }
    }
  }

  datatype TransportVarPlayer = TransportVarPlayer(id: Int32, value: Int32, check: TransportVarCheck)

  /**
   * `check(values)`: compares `values[id]` with `value`; `TIME_EXCEEDS` asks whether more than
   * `value` minutes have passed since `values[id]`. `nowMinutes` is the clock reading.
   */
  function Check(p: TransportVarPlayer, values: map<int, Int32>, nowMinutes: int): (ok: bool)
    requires p.id in values
    ensures p.check == EQUAL ==> (ok <==> values[p.id] == p.value)
    ensures p.check == GREATER ==> (ok <==> values[p.id] > p.value)
    ensures p.check == SMALLER ==> (ok <==> values[p.id] < p.value)
    ensures p.check == TIME_EXCEEDS ==> (ok <==> nowMinutes - values[p.id] > p.value)
  {
    match p.check
    case EQUAL => values[p.id] == p.value
    case GREATER => values[p.id] > p.value
    case SMALLER => values[p.id] < p.value
    case TIME_EXCEEDS => nowMinutes - values[p.id] > p.value
  }

  /** The current operator each legacy operator became. */
  function CurrentCheck(c: TransportVarCheck): VarCheckTypes.VarCheckType {
    match c
    case EQUAL => VarCheckTypes.EQUAL
    case GREATER => VarCheckTypes.GREATER
    case SMALLER => VarCheckTypes.SMALLER
    case TIME_EXCEEDS => VarCheckTypes.COOLDOWN_MINUTES
  }

  /**
   * Where the legacy check is defined it agrees with the current varplayer requirement of the
   * same id, value and (renamed) operator; where it faults, the current check answers false.
   */
  lemma AgreesWithCurrentCheck(p: TransportVarPlayer, values: map<int, Int32>, nowMinutes: int)
    ensures var r := VarRequirements.VarRequirement(VarRequirements.VARPLAYER, p.id, p.value, CurrentCheck(p.check));
      && (p.id in values ==> (VarRequirements.Check(r, values, nowMinutes) <==> Check(p, values, nowMinutes)))
      && (p.id !in values ==> !VarRequirements.Check(r, values, nowMinutes))
  {
  }
}
