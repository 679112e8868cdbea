/**
 * `QuestParser`: a table cell of quest names separated by ';' becomes the set of quests with exactly
 * those names. Quests are indices into `questNames`, the names of `Quest.values()` in declaration
 * order; the enum itself is not part of this model.
 */
module QuestParsing {
  import opened Wrappers
  import opened JavaStrings

  /** The first quest at or after `from` whose name is `name`. */
  function FirstNamedFrom(questNames: seq<string>, name: string, from: nat): (k: Option<nat>)
    ensures k.Some? ==> from <= k.value < |questNames| && questNames[k.value] == name
    ensures k.Some? ==> forall j :: from <= j < k.value ==> questNames[j] != name
    ensures k.None? ==> forall j :: from <= j < |questNames| ==> questNames[j] != name
    decreases |questNames| - from
  {
    if from >= |questNames| then None
    else if questNames[from] == name then Some(from)
    else FirstNamedFrom(questNames, name, from + 1)
  }

  /** The quests a list of names selects: for each name, the first quest of that name, if any. */
  function QuestsNamed(questNames: seq<string>, names: seq<string>): set<nat>
  {
    if names == [] then {}
    else
      var first := FirstNamedFrom(questNames, names[0], 0);
      (if first.Some? then {first.value} else {}) + QuestsNamed(questNames, names[1..])
  }

  /** `parse(value)`, with `None` for `null`. */
  function ParseSpec(questNames: seq<string>, value: Option<string>): set<nat>
  {
    match value
    case None => {}
    case Some(text) => if text == "" then {} else QuestsNamed(questNames, Split(text, ";"))
  }

  /** `parse`: for each name, the inner loop stops at the first quest of that name. */
  method Parse(questNames: seq<string>, value: Option<string>) returns (quests: set<nat>)
    ensures quests == ParseSpec(questNames, value)
  {
    quests := {};
    if value.None? || value.value == "" {
      return;
    }
    var names := Split(value.value, ";");
    var i := 0;
    while i < |names|
      invariant 0 <= i <= |names|
      invariant QuestsNamed(questNames, names) == quests + QuestsNamed(questNames, names[i..])
    {
      assert names[i..][1..] == names[i + 1..];
      var name := names[i];
      var j := 0;
      while j < |questNames| && questNames[j] != name
        invariant 0 <= j <= |questNames|
        invariant FirstNamedFrom(questNames, name, 0) == FirstNamedFrom(questNames, name, j)
      {
        j := j + 1;
      }
      if j < |questNames| {
        quests := quests + {j};
      }
      i := i + 1;
    }
  }

  /** A quest is selected exactly when some name equals its name and no earlier quest has that name. */
  lemma {:induction false} QuestsNamedIff(questNames: seq<string>, names: seq<string>, k: nat)
    ensures k in QuestsNamed(questNames, names)
        <==> k < |questNames| && questNames[k] in names && forall j :: 0 <= j < k ==> questNames[j] != questNames[k]
    decreases |names|
  {
    if names != [] {
      QuestsNamedIff(questNames, names[1..], k);
      assert names == [names[0]] + names[1..];
      var first := FirstNamedFrom(questNames, names[0], 0);
      if first.Some? && first.value != k && k < |questNames| && questNames[k] == names[0] {
        assert forall j :: 0 <= j < first.value ==> questNames[j] != names[0];
      }
    }
  }

  /** The result holds only known quests, and for distinct quest names every named quest is in it. */
  lemma ParseSelectsNamedQuests(questNames: seq<string>, value: string, k: nat)
    requires value != ""
    requires forall i, j :: 0 <= i < j < |questNames| ==> questNames[i] != questNames[j]
    ensures k in ParseSpec(questNames, Some(value)) <==> k < |questNames| && questNames[k] in Split(value, ";")
  {
    QuestsNamedIff(questNames, Split(value, ";"), k);
  }
}
