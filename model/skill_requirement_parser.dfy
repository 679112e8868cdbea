/**
 * `SkillRequirementParser`: a cell such as `70 Agility;50 Strength` becomes an array with one slot
 * per skill (in `Skill.values()` order, named by `skillNames`) followed by three slots for total
 * level, combat level and quest points.
 */
module SkillRequirementParsing {
  import opened Wrappers
  import opened JavaStrings

  /** The slots after the skills: total level, combat level, quest points. */
  function TotalSlot(skillNames: seq<string>): nat { |skillNames| }
  function CombatSlot(skillNames: seq<string>): nat { |skillNames| + 1 }
  function QuestSlot(skillNames: seq<string>): nat { |skillNames| + 2 }

  /** The level array of one entry `level name` written over `levels`. */
  function ApplyEntry(skillNames: seq<string>, levels: seq<int>, level: int, name: string): (r: seq<int>)
    requires |levels| == |skillNames| + 3
    ensures |r| == |levels|
    ensures forall i :: 0 <= i < |skillNames| ==> r[i] == if skillNames[i] == name then level else levels[i]
    ensures r[TotalSlot(skillNames)] == if StartsWith(ToLowerAscii(name), "total") then level else levels[TotalSlot(skillNames)]
    ensures r[CombatSlot(skillNames)] == if StartsWith(ToLowerAscii(name), "combat") then level else levels[CombatSlot(skillNames)]
    ensures r[QuestSlot(skillNames)] == if StartsWith(ToLowerAscii(name), "quest") then level else levels[QuestSlot(skillNames)]
  {
    var lower := ToLowerAscii(name);
    seq(|levels|, i requires 0 <= i < |levels| =>
      if i < |skillNames| then (if skillNames[i] == name then level else levels[i])
      else if i == TotalSlot(skillNames) then (if StartsWith(lower, "total") then level else levels[i])
      else if i == CombatSlot(skillNames) then (if StartsWith(lower, "combat") then level else levels[i])
      else (if StartsWith(lower, "quest") then level else levels[i]))
  }

  /**
   * The entries in order: empty entries and entries that are not two space-separated tokens are
   * skipped; a level that is not a number ends the parse, keeping what was written so far.
   */
  function ReadEntries(skillNames: seq<string>, levels: seq<int>, entries: seq<string>): (r: seq<int>)
    requires |levels| == |skillNames| + 3
    ensures |r| == |levels|
    decreases |entries|
  {
    if entries == [] then levels
    else if entries[0] == "" then ReadEntries(skillNames, levels, entries[1..])
    else
      var levelAndSkill := Split(entries[0], " ");
      if |levelAndSkill| != 2 then ReadEntries(skillNames, levels, entries[1..])
      else
        match ParseInt(levelAndSkill[0])
        case None => levels
        case Some(level) => ReadEntries(skillNames, ApplyEntry(skillNames, levels, level, levelAndSkill[1]), entries[1..])
  }

  function Zeros(n: nat): (z: seq<int>)
    ensures |z| == n && forall i :: 0 <= i < n ==> z[i] == 0
  {
    seq(n, i => 0)
  }

  /** `parse(value)`, with `None` for `null`. */
  function ParseSpec(skillNames: seq<string>, value: Option<string>): (r: seq<int>)
    ensures |r| == |skillNames| + 3
  {
    var zeros := Zeros(|skillNames| + 3);
    match value
    case None => zeros
    case Some(text) => ReadEntries(skillNames, zeros, Split(text, ";"))
  }

  /** `parse`: writes each entry's level into the slots it names. */
  method Parse(skillNames: seq<string>, value: Option<string>) returns (skillLevels: array<int>)
    ensures fresh(skillLevels)
    ensures skillLevels[..] == ParseSpec(skillNames, value)
  {
    var n := |skillNames|;
    skillLevels := new int[n + 3](i => 0);
    assert skillLevels[..] == Zeros(n + 3);
    if value.None? {
      return;
    }
    var requirements := Split(value.value, ";");
    var k := 0;
    while k < |requirements|
      invariant 0 <= k <= |requirements|
      invariant skillLevels.Length == n + 3
      invariant ParseSpec(skillNames, value) == ReadEntries(skillNames, skillLevels[..], requirements[k..])
    {
      assert requirements[k..][1..] == requirements[k + 1..];
      var requirement := requirements[k];
      if requirement != "" {
        var levelAndSkill := Split(requirement, " ");
        if |levelAndSkill| == 2 {
          var parsed := ParseInt(levelAndSkill[0]);
          if parsed.None? {
            return;
          }
          WriteEntry(skillNames, skillLevels, parsed.value, levelAndSkill[1]);
        }
      }
      k := k + 1;
    }
  }

  /** The body of `parse`'s loop for one well-formed entry: the slots the name selects get the level. */
  method WriteEntry(skillNames: seq<string>, skillLevels: array<int>, level: int, skillName: string)
    requires skillLevels.Length == |skillNames| + 3
    modifies skillLevels
    ensures skillLevels[..] == ApplyEntry(skillNames, old(skillLevels[..]), level, skillName)
  {
    var n := |skillNames|;
    ghost var before := skillLevels[..];
    ghost var expected := ApplyEntry(skillNames, before, level, skillName);
    var i := 0;
    while i < n
      invariant 0 <= i <= n
      invariant forall j :: 0 <= j < i ==> skillLevels[j] == expected[j]
      invariant forall j :: i <= j < n + 3 ==> skillLevels[j] == before[j]
    {
      if skillNames[i] == skillName {
        skillLevels[i] := level;
      }
      i := i + 1;
    }
    var lower := ToLowerAscii(skillName);
    if StartsWith(lower, "total") {
      skillLevels[i] := level;
    }
    assert skillLevels[n] == expected[n];
    i := i + 1;
    if StartsWith(lower, "combat") {
      skillLevels[i] := level;
    }
    assert skillLevels[n + 1] == expected[n + 1];
    i := i + 1;
    if StartsWith(lower, "quest") {
      skillLevels[i] := level;
    }
    assert skillLevels[n + 2] == expected[n + 2];
    assert forall j :: 0 <= j < n + 3 ==> skillLevels[j] == expected[j];
    assert skillLevels[..] == expected;
  }

  /** A null cell and an empty cell both give all zeros. */
  lemma EmptyIsZeros(skillNames: seq<string>)
    ensures ParseSpec(skillNames, None) == Zeros(|skillNames| + 3)
    ensures ParseSpec(skillNames, Some("")) == Zeros(|skillNames| + 3)
  {
    assert Split("", ";") == [""];
  }

  /**
   * A cell `level name`, where `name` is a one-word skill name, sets that skill's slot and leaves
   * every skill of another name at zero.
   */
  lemma SingleSkillEntry(skillNames: seq<string>, k: nat, level: int)
    requires k < |skillNames| && skillNames[k] != ""
    requires Avoids(skillNames[k], ' ') && Avoids(skillNames[k], ';') && IsInt32(level)
    ensures var r := ParseSpec(skillNames, Some(IntToString(level) + " " + skillNames[k]));
      && r[k] == level
      && forall j :: 0 <= j < |skillNames| && skillNames[j] != skillNames[k] ==> r[j] == 0
  {
    var a, name := IntToString(level), skillNames[k];
    var cell := a + " " + name;
    IntToStringNumeral(level);
    NumeralAvoids(a, ' ');
    NumeralAvoids(a, ';');
    SplitTwo(a, " ", name);
    assert Avoids(cell, ';');
    SplitAllNoMatch(cell, ";");
    ParseIntToString(level);
    var zeros := Zeros(|skillNames| + 3);
    assert ReadEntries(skillNames, zeros, [cell]) == ApplyEntry(skillNames, zeros, level, name);
  }

  /**
   * An entry whose name is two words, such as the documented special name "Total level", splits into
   * three tokens and is skipped, so the cell leaves every slot at zero.
   */
  lemma {:induction false} MultiWordNameIsSkipped(skillNames: seq<string>, level: int, first: string, second: string)
    requires first != "" && second != ""
    requires Avoids(first, ' ') && Avoids(second, ' ') && Avoids(first, ';') && Avoids(second, ';')
    ensures ParseSpec(skillNames, Some(IntToString(level) + " " + first + " " + second)) == Zeros(|skillNames| + 3)
  {
    var a := IntToString(level);
    var cell := a + " " + first + " " + second;
    IntToStringNumeral(level);
    NumeralAvoids(a, ' ');
    NumeralAvoids(a, ';');
    SplitThree(a, first, second, " ");
    assert Avoids(cell, ';');
    SplitAllNoMatch(cell, ";");
    assert Split(cell, ";") == [cell];
    assert |Split(cell, " ")| == 3;
    assert ReadEntries(skillNames, Zeros(|skillNames| + 3), [cell]) == ReadEntries(skillNames, Zeros(|skillNames| + 3), []);
  }

  /** "Total level" itself is such a name. */
  lemma TotalLevelIsSkipped(skillNames: seq<string>, level: int)
    ensures ParseSpec(skillNames, Some(IntToString(level) + " " + "Total" + " " + "level")) == Zeros(|skillNames| + 3)
  {
    MultiWordNameIsSkipped(skillNames, level, "Total", "level");
  }

  /** A one-word name starting with "total" in any ASCII case sets the total-level slot. */
  lemma {:induction false} TotalPrefixSetsTotalSlot(skillNames: seq<string>, level: int, name: string)
    requires IsInt32(level) && name != "" && Avoids(name, ' ') && Avoids(name, ';')
    requires StartsWith(ToLowerAscii(name), "total")
    ensures ParseSpec(skillNames, Some(IntToString(level) + " " + name))[TotalSlot(skillNames)] == level
  {
    var a := IntToString(level);
    var cell := a + " " + name;
    IntToStringNumeral(level);
    NumeralAvoids(a, ' ');
    NumeralAvoids(a, ';');
    SplitTwo(a, " ", name);
    assert Avoids(cell, ';');
    SplitAllNoMatch(cell, ";");
    ParseIntToString(level);
    var zeros := Zeros(|skillNames| + 3);
    assert ReadEntries(skillNames, zeros, [cell]) == ApplyEntry(skillNames, zeros, level, name);
  }

  /** A level that is not a number ends the parse: the entries after it are never read. */
  lemma {:induction false} NumberErrorKeepsEarlier(skillNames: seq<string>, levels: seq<int>, before: seq<string>, bad: string, after: seq<string>)
    requires |levels| == |skillNames| + 3
    requires bad != "" && |Split(bad, " ")| == 2 && ParseInt(Split(bad, " ")[0]).None?
    ensures ReadEntries(skillNames, levels, before + [bad] + after) == ReadEntries(skillNames, levels, before)
    decreases |before|
  {
    if before == [] {
      assert before + [bad] + after == [bad] + after;
    } else {
      assert (before + [bad] + after)[1..] == before[1..] + [bad] + after;
      var levelAndSkill := Split(before[0], " ");
      if before[0] == "" || |levelAndSkill| != 2 {
        NumberErrorKeepsEarlier(skillNames, levels, before[1..], bad, after);
      } else if ParseInt(levelAndSkill[0]).Some? {
        var next := ApplyEntry(skillNames, levels, ParseInt(levelAndSkill[0]).value, levelAndSkill[1]);
        NumberErrorKeepsEarlier(skillNames, next, before[1..], bad, after);
      }
    }
  }

  /** A later entry for the same name overwrites the level an earlier one wrote. */
  lemma LaterEntryOverwrites(skillNames: seq<string>, levels: seq<int>, first: int, second: int, name: string)
    requires |levels| == |skillNames| + 3
    ensures ApplyEntry(skillNames, ApplyEntry(skillNames, levels, first, name), second, name)
         == ApplyEntry(skillNames, levels, second, name)
  {
    var once := ApplyEntry(skillNames, levels, second, name);
    var twice := ApplyEntry(skillNames, ApplyEntry(skillNames, levels, first, name), second, name);
    assert forall i :: 0 <= i < |levels| ==> twice[i] == once[i] by {
      forall i | 0 <= i < |levels|
        ensures twice[i] == once[i]
      {
        if i >= |skillNames| {
          assert i == TotalSlot(skillNames) || i == CombatSlot(skillNames) || i == QuestSlot(skillNames);
        }
      }
    }
  }
}
