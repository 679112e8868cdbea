/**
 * The legacy `shortestpath.transport.WorldPointParser` and `QuestParser`. Their code is the same as
 * that of the current parsers in `transport.parser`; the model states that agreement, so every
 * property proved of the current parsers holds of the legacy ones.
 */
module LegacyParsers {
  import opened Wrappers
  import opened JavaStrings
  import opened Worlds
  import WorldPointParsing
  import QuestParsing

  /** Legacy `WorldPointParser.parse`: the same answers as the current parser, on every cell. */
  function ParseWorldPoint(w: World, value: Option<string>): (r: Result<int>)
    ensures r == WorldPointParsing.Parse(w, value)
  {
    if value.None? || value.value == "" then Ok(LocationPermutation(w))
    else
      var parts := Split(value.value, " ");
      if |parts| == 3 then
        var x, y, plane := ParseInt(parts[0]), ParseInt(parts[1]), ParseInt(parts[2]);
        if x.None? || y.None? || plane.None? then Err(WorldPointParsing.NUMBER_FORMAT_ERROR)
        else Ok(w.pack(x.value, y.value, plane.value))
      else Ok(LocationPermutation(w))
  }

  /** Legacy `QuestParser.parse`: the same nested loops, so the same quests as the current parser. */
  method ParseQuests(questNames: seq<string>, value: Option<string>) returns (quests: set<nat>)
    ensures quests == QuestParsing.ParseSpec(questNames, value)
    ensures forall k :: k in quests ==> k < |questNames|
  {
    quests := {};
    if value.None? || value.value == "" {
      return;
    }
    var questNamesInCell := Split(value.value, ";");
    var i := 0;
    while i < |questNamesInCell|
      invariant 0 <= i <= |questNamesInCell|
      invariant QuestParsing.QuestsNamed(questNames, questNamesInCell)
             == quests + QuestParsing.QuestsNamed(questNames, questNamesInCell[i..])
      invariant forall k :: k in quests ==> k < |questNames|
    {
      assert questNamesInCell[i..][1..] == questNamesInCell[i + 1..];
      var questName := questNamesInCell[i];
      var q := 0;
      var found := false;
      while q < |questNames| && !found
        invariant 0 <= q <= |questNames|
        invariant !found ==>
          QuestParsing.FirstNamedFrom(questNames, questName, 0) == QuestParsing.FirstNamedFrom(questNames, questName, q)
        invariant found ==> q < |questNames| && QuestParsing.FirstNamedFrom(questNames, questName, 0) == Some(q)
        decreases |questNames| - q, if found then 0 else 1
      {
        if questNames[q] == questName {
          found := true;
        } else {
          q := q + 1;
        }
      }
      if found {
        quests := quests + {q};
      }
      i := i + 1;
    }
  }
}
