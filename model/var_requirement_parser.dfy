/**
 * `VarRequirementParser`: reads `<id><code><value>` entries separated by ';' into a set of
 * `VarRequirement`s of the parser's variable type.
 */
module VarRequirementParsing {
  import opened Wrappers
  import opened JavaStrings
  import opened VarCheckTypes
  import opened VarRequirements

  /** What `parseRequirement` does with one entry: a requirement, `null`, or a thrown NumberFormatException. */
  datatype EntryOutcome = Parsed(requirement: VarRequirement) | Unmatched | NumberFormatError

  /** One entry, trying the codes of `checks` in order: the first code that splits it in two decides. */
  function ReadEntry(varType: VarType, entry: string, checks: seq<VarCheckType>): EntryOutcome
  {
    if checks == [] then Unmatched
    else
      var parts := Split(entry, Code(checks[0]));
      if |parts| == 2 then
        match (ParseInt(parts[0]), ParseInt(parts[1]))
        case (Some(id), Some(v)) => Parsed(VarRequirement(varType, id, v, checks[0]))
        case _ => NumberFormatError
      else ReadEntry(varType, entry, checks[1..])
  }

  /** The entries in order: empty and unmatched entries add nothing, a number error ends the parse. */
  function ReadEntries(varType: VarType, entries: seq<string>): set<VarRequirement>
  {
    if entries == [] then {}
    else if entries[0] == "" then ReadEntries(varType, entries[1..])
    else
      match ReadEntry(varType, entries[0], CheckOrder)
      case NumberFormatError => {}
      case Unmatched => ReadEntries(varType, entries[1..])
      case Parsed(r) => {r} + ReadEntries(varType, entries[1..])
  }

  /** `parse(value)`, with `None` for `null`. */
  function ParseSpec(varType: VarType, value: Option<string>): set<VarRequirement>
  {
    match value
    case None => {}
    case Some(text) => if text == "" then {} else ReadEntries(varType, Split(text, ";"))
  }

  class VarRequirementParser {
    const varType: VarType

    constructor (varType: VarType)
      ensures this.varType == varType
    {
      this.varType := varType;
    }

    static method ForVarbits() returns (p: VarRequirementParser)
      ensures fresh(p) && p.varType == VARBIT
    {
      p := new VarRequirementParser(VARBIT);
    }

    static method ForVarPlayers() returns (p: VarRequirementParser)
      ensures fresh(p) && p.varType == VARPLAYER
    {
      p := new VarRequirementParser(VARPLAYER);
    }

    method Parse(value: Option<string>) returns (result: set<VarRequirement>)
      ensures result == ParseSpec(varType, value)
    {
      result := {};
      if value.None? || value.value == "" {
        return;
      }
      var entries := Split(value.value, ";");
      var i := 0;
      while i < |entries|
        invariant 0 <= i <= |entries|
        invariant ReadEntries(varType, entries) == result + ReadEntries(varType, entries[i..])
      {
        assert entries[i..][1..] == entries[i + 1..];
        var entry := entries[i];
        if entry != "" {
          var outcome := ParseRequirement(entry);
          match outcome
          case NumberFormatError =>
            return;
          case Unmatched =>
          case Parsed(r) =>
            result := result + {r};
        }
        i := i + 1;
      }
    }

    method ParseRequirement(requirement: string) returns (outcome: EntryOutcome)
      ensures outcome == ReadEntry(varType, requirement, CheckOrder)
    {
      var i := 0;
      while i < |CheckOrder|
        invariant 0 <= i <= |CheckOrder|
        invariant ReadEntry(varType, requirement, CheckOrder) == ReadEntry(varType, requirement, CheckOrder[i..])
      {
        var checkType := CheckOrder[i];
        assert CheckOrder[i..][1..] == CheckOrder[i + 1..];
        var parts := Split(requirement, Code(checkType));
        if |parts| == 2 {
          var id := ParseInt(parts[0]);
          var val := ParseInt(parts[1]);
          if id.None? || val.None? {
            return NumberFormatError;
          }
          return Parsed(VarRequirement(varType, id.value, val.value, checkType));
        }
        i := i + 1;
      }
      return Unmatched;
    }
  }

  /** The requirements of a list, as a set. */
  function Elements(reqs: seq<VarRequirement>): set<VarRequirement> {
    set r | r in reqs
  }

  /** The documented text of a requirement: `<id><code><value>`. */
  function Format(r: VarRequirement): string {
    IntToString(r.id) + Code(r.checkType) + IntToString(r.value)
  }

  lemma FormatAvoids(r: VarRequirement, c: VarCheckType)
    requires c != r.checkType
    ensures Avoids(Format(r), Code(c)[0])
    ensures Avoids(Format(r), ';')
  {
    IntToStringNumeral(r.id);
    IntToStringNumeral(r.value);
    CodesDistinct(c, r.checkType);
    var a, b := IntToString(r.id), IntToString(r.value);
    NumeralAvoids(a, Code(c)[0]);
    NumeralAvoids(b, Code(c)[0]);
    NumeralAvoids(a, ';');
    NumeralAvoids(b, ';');
  }

  /** The entry's own code is the only one that splits it, so the formatted text reads back. */
  lemma {:induction false} FormatReadsBack(r: VarRequirement, checks: seq<VarCheckType>)
    requires r.checkType in checks
    ensures ReadEntry(r.varType, Format(r), checks) == Parsed(r)
    decreases |checks|
  {
    var a, b := IntToString(r.id), IntToString(r.value);
    IntToStringNumeral(r.id);
    IntToStringNumeral(r.value);
    if checks[0] == r.checkType {
      NumeralAvoids(a, Code(r.checkType)[0]);
      NumeralAvoids(b, Code(r.checkType)[0]);
      SplitTwo(a, Code(r.checkType), b);
      ParseIntToString(r.id);
      ParseIntToString(r.value);
    } else {
      FormatAvoids(r, checks[0]);
      SplitAllNoMatch(Format(r), Code(checks[0]));
      FormatReadsBack(r, checks[1..]);
    }
  }

  function Formats(reqs: seq<VarRequirement>): (texts: seq<string>)
    ensures |texts| == |reqs|
    ensures forall i :: 0 <= i < |reqs| ==> texts[i] == Format(reqs[i])
  {
    if reqs == [] then [] else [Format(reqs[0])] + Formats(reqs[1..])
  }

  lemma {:induction false} ReadFormattedEntries(varType: VarType, reqs: seq<VarRequirement>)
    requires forall i :: 0 <= i < |reqs| ==> reqs[i].varType == varType
    ensures ReadEntries(varType, Formats(reqs)) == Elements(reqs)
    decreases |reqs|
  {
    if reqs != [] {
      CodesDistinct(reqs[0].checkType, reqs[0].checkType);
      FormatReadsBack(reqs[0], CheckOrder);
      ReadFormattedEntries(varType, reqs[1..]);
      assert Formats(reqs)[1..] == Formats(reqs[1..]);
      assert Elements(reqs) == {reqs[0]} + Elements(reqs[1..]);
    }
  }

  /** The formatted entries joined by ';' split back into the same entries. */
  lemma SplitFormatted(reqs: seq<VarRequirement>)
    requires |reqs| >= 1
    ensures Join(Formats(reqs), ";") != ""
    ensures Split(Join(Formats(reqs), ";"), ";") == Formats(reqs)
  {
    var texts := Formats(reqs);
    assert texts[|texts| - 1] != "";
    forall i | 0 <= i < |texts|
      ensures Avoids(texts[i], ';')
    {
      var other := if reqs[i].checkType == EQUAL then GREATER else EQUAL;
      FormatAvoids(reqs[i], other);
    }
    SplitOfJoin(texts, ";");
  }

  /**
   * Round trip, first half: requirements written in the documented format and joined by ';'
   * parse as the formatted entries read one by one (`ReadFormattedEntries` is the second half).
   */
  lemma ParseFormatted(varType: VarType, reqs: seq<VarRequirement>)
    requires |reqs| >= 1
    ensures ParseSpec(varType, Some(Join(Formats(reqs), ";"))) == ReadEntries(varType, Formats(reqs))
  {
    SplitFormatted(reqs);
  }

  /** A number error abandons the later entries but keeps the earlier ones. */
  lemma {:induction false} NumberErrorKeepsEarlier(varType: VarType, before: seq<string>, bad: string, after: seq<string>)
    requires bad != "" && ReadEntry(varType, bad, CheckOrder) == NumberFormatError
    requires forall i :: 0 <= i < |before| ==> before[i] == "" || !ReadEntry(varType, before[i], CheckOrder).NumberFormatError?
    ensures ReadEntries(varType, before + [bad] + after) == ReadEntries(varType, before)
    decreases |before|
  {
    if before != [] {
      assert (before + [bad] + after)[1..] == before[1..] + [bad] + after;
      NumberErrorKeepsEarlier(varType, before[1..], bad, after);
    }
  }

  /** Every parsed requirement carries the parser's variable type. */
  lemma {:induction false} ParsedCarryVarType(varType: VarType, entries: seq<string>)
    ensures forall r :: r in ReadEntries(varType, entries) ==> r.varType == varType
    decreases |entries|
  {
    if entries != [] {
      ParsedCarryVarType(varType, entries[1..]);
      if entries[0] != "" {
        EntryCarriesVarType(varType, entries[0], CheckOrder);
      }
    }
  }

  lemma {:induction false} EntryCarriesVarType(varType: VarType, entry: string, checks: seq<VarCheckType>)
    ensures ReadEntry(varType, entry, checks).Parsed? ==> ReadEntry(varType, entry, checks).requirement.varType == varType
    decreases |checks|
  {
    if checks != [] {
      EntryCarriesVarType(varType, entry, checks[1..]);
    }
  }

  /** An entry containing none of the codes is skipped. */
  lemma {:induction false} NoCodeIsUnmatched(varType: VarType, entry: string, checks: seq<VarCheckType>)
    requires forall c :: c in checks ==> Avoids(entry, Code(c)[0])
    ensures ReadEntry(varType, entry, checks) == Unmatched
    decreases |checks|
  {
    if checks != [] {
      SplitAllNoMatch(entry, Code(checks[0]));
      NoCodeIsUnmatched(varType, entry, checks[1..]);
    }
  }
}
