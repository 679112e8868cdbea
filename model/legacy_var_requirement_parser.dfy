/**
 * The legacy generic `VarRequirementParser<T>`: reads `<id><code><value>` entries separated by ';'
 * with the legacy codes, one of which ("@time_exceeds@") is longer than a character. Each parsed
 * entry goes through the subclass's `create(id, value, check)`, which makes a new object of a class
 * without `equals`, so the `HashSet` it is added to keeps one element per parsed entry: the model
 * returns the created triples as a sequence, in entry order.
 */
module LegacyVarRequirementParsing {
  import opened Wrappers
  import opened JavaStrings
  import opened LegacyVarPlayers

  /** The arguments of one `create(id, value, check)` call. */
  datatype Created = Created(id: Int32, value: Int32, check: TransportVarCheck)

  /** `TransportVarPlayerParser.create`. */
  function AsVarPlayer(c: Created): (p: TransportVarPlayer)
    ensures p.id == c.id && p.value == c.value && p.check == c.check
  {
    TransportVarPlayer(c.id, c.value, c.check)
  }

  datatype EntryOutcome = Parsed(created: Created) | Unmatched | NumberFormatError

  /** The inner loop over `checks`: the first code that splits the entry into two parts decides. */
  function ReadEntry(entry: string, checks: seq<TransportVarCheck>): EntryOutcome
  {
    if checks == [] then Unmatched
    else
      var parts := Split(entry, Code(checks[0]));
      if |parts| == 2 then
        match (ParseInt(parts[0]), ParseInt(parts[1]))
        case (Some(id), Some(v)) => Parsed(Created(id, v, checks[0]))
        case _ => NumberFormatError
      else ReadEntry(entry, checks[1..])
  }

  /** The outer loop: empty and unmatched entries add nothing, a number error ends the parse. */
  function ReadEntries(entries: seq<string>): seq<Created>
  {
    if entries == [] then []
    else if entries[0] == "" then ReadEntries(entries[1..])
    else
      match ReadEntry(entries[0], CheckOrder)
      case NumberFormatError => []
      case Unmatched => ReadEntries(entries[1..])
      case Parsed(c) => [c] + ReadEntries(entries[1..])
  }

  /** `parse(value)`, with `None` for `null`. */
  function ParseSpec(value: Option<string>): seq<Created>
  {
    match value
    case None => []
    case Some(text) => if text == "" then [] else ReadEntries(Split(text, ";"))
  }

  /** `parse`, with its two nested loops. */
  method Parse(value: Option<string>) returns (result: seq<Created>)
    ensures result == ParseSpec(value)
  {
    result := [];
    if value.None? || value.value == "" {
      return;
    }
    var requirements := Split(value.value, ";");
    var i := 0;
    while i < |requirements|
      invariant 0 <= i <= |requirements|
      invariant ReadEntries(requirements) == result + ReadEntries(requirements[i..])
    {
      assert requirements[i..][1..] == requirements[i + 1..];
      var requirement := requirements[i];
      if requirement != "" {
        // the inner loop over the codes; `outcome` stays `Unmatched` until some code splits the entry in two
        var outcome := Unmatched;
        var j := 0;
        while j < |CheckOrder| && outcome.Unmatched?
          invariant 0 <= j <= |CheckOrder|
          invariant outcome.Unmatched? ==> ReadEntry(requirement, CheckOrder) == ReadEntry(requirement, CheckOrder[j..])
          invariant !outcome.Unmatched? ==> ReadEntry(requirement, CheckOrder) == outcome
          decreases |CheckOrder| - j, if outcome.Unmatched? then 1 else 0
        {
          var check := CheckOrder[j];
          assert CheckOrder[j..][1..] == CheckOrder[j + 1..];
          var parts := Split(requirement, Code(check));
          if |parts| == 2 {
            var id := ParseInt(parts[0]);
            var val := ParseInt(parts[1]);
            if id.None? || val.None? {
              outcome := NumberFormatError;
            } else {
              outcome := Parsed(Created(id.value, val.value, check));
            }
          } else {
            j := j + 1;
          }
        }
        match outcome
        case NumberFormatError =>
          return;
        case Unmatched =>
        case Parsed(c) =>
          result := result + [c];
      }
      i := i + 1;
    }
  }

  /** The documented text of an entry: `<id><code><value>`. */
  function Format(c: Created): string {
    IntToString(c.id) + Code(c.check) + IntToString(c.value)
  }

  /** A formatted entry mentions no other code's first character, and no ';'. */
  lemma FormatAvoids(c: Created, other: TransportVarCheck)
    requires other != c.check
    ensures Avoids(Format(c), Code(other)[0])
    ensures Avoids(Format(c), ';')
  {
    var a, b := IntToString(c.id), IntToString(c.value);
    IntToStringNumeral(c.id);
    IntToStringNumeral(c.value);
    NumeralAvoids(a, Code(other)[0]);
    NumeralAvoids(b, Code(other)[0]);
    NumeralAvoids(a, ';');
    NumeralAvoids(b, ';');
    CodesDistinct(other, c.check);
    CodesDistinct(c.check, other);
    assert Avoids(Code(c.check), Code(other)[0]) by {
      if c.check != TIME_EXCEEDS {
        assert |Code(c.check)| == 1;
      }
    }
    assert Avoids(Code(c.check), ';') by {
      CodesDistinct(c.check, c.check);
      if c.check == TIME_EXCEEDS {
        forall i | 0 <= i < |TIME_EXCEEDS_CODE|
          ensures TIME_EXCEEDS_CODE[i] != ';'
        {
        }
      }
    }
  }

  /** Only the entry's own code splits it, including the long "@time_exceeds@" code. */
  lemma {:induction false} FormatReadsBack(c: Created, checks: seq<TransportVarCheck>)
    requires c.check in checks
    ensures ReadEntry(Format(c), checks) == Parsed(c)
    decreases |checks|
  {
    var a, b := IntToString(c.id), IntToString(c.value);
    IntToStringNumeral(c.id);
    IntToStringNumeral(c.value);
    if checks[0] == c.check {
      NumeralAvoids(a, Code(c.check)[0]);
      NumeralAvoids(b, Code(c.check)[0]);
      SplitTwo(a, Code(c.check), b);
      ParseIntToString(c.id);
      ParseIntToString(c.value);
    } else {
      FormatAvoids(c, checks[0]);
      SplitAllNoMatch(Format(c), Code(checks[0]));
      FormatReadsBack(c, checks[1..]);
    }
  }

  function Formats(cs: seq<Created>): (texts: seq<string>)
    ensures |texts| == |cs|
    ensures forall i :: 0 <= i < |cs| ==> texts[i] == Format(cs[i])
  {
    if cs == [] then [] else [Format(cs[0])] + Formats(cs[1..])
  }

  lemma {:induction false} ReadFormattedEntries(cs: seq<Created>)
    ensures ReadEntries(Formats(cs)) == cs
    decreases |cs|
  {
    if cs != [] {
      CodesDistinct(cs[0].check, cs[0].check);
      FormatReadsBack(cs[0], CheckOrder);
      ReadFormattedEntries(cs[1..]);
      assert Formats(cs)[1..] == Formats(cs[1..]);
    }
  }

  lemma SplitFormatted(cs: seq<Created>)
    requires |cs| >= 1
    ensures Join(Formats(cs), ";") != ""
    ensures Split(Join(Formats(cs), ";"), ";") == Formats(cs)
  {
    var texts := Formats(cs);
    assert texts[|texts| - 1] != "";
    forall i | 0 <= i < |texts|
      ensures Avoids(texts[i], ';')
    {
      var other := if cs[i].check == EQUAL then GREATER else EQUAL;
      FormatAvoids(cs[i], other);
    }
    SplitOfJoin(texts, ";");
  }

  /** Round trip: entries written in the documented format and joined by ';' parse back, in order. */
  lemma ParseFormatted(cs: seq<Created>)
    requires |cs| >= 1
    ensures ParseSpec(Some(Join(Formats(cs), ";"))) == cs
  {
    SplitFormatted(cs);
    ReadFormattedEntries(cs);
  }

  /** A number error abandons the later entries but keeps the earlier ones. */
  lemma {:induction false} NumberErrorKeepsEarlier(before: seq<string>, bad: string, after: seq<string>)
    requires bad != "" && ReadEntry(bad, CheckOrder) == NumberFormatError
    requires forall i :: 0 <= i < |before| ==> before[i] == "" || !ReadEntry(before[i], CheckOrder).NumberFormatError?
    ensures ReadEntries(before + [bad] + after) == ReadEntries(before)
    decreases |before|
  {
    if before != [] {
      assert (before + [bad] + after)[1..] == before[1..] + [bad] + after;
      NumberErrorKeepsEarlier(before[1..], bad, after);
    }
  }

  /** Every non-empty entry adds at most one element, so the result is never longer than the entries. */
  lemma {:induction false} AtMostOnePerEntry(entries: seq<string>)
    ensures |ReadEntries(entries)| <= |entries|
    decreases |entries|
  {
    if entries != [] {
      AtMostOnePerEntry(entries[1..]);
    }
  }
}
