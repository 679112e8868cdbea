/**
 * `Transport`: one travel edge between two packed world points with everything needed to decide
 * whether the player may use it, and `TransportBuilder`, which accumulates those fields step by
 * step. `Transport` has no `equals`, so two transports are the same only when they are the same
 * object: it is a class here, and sets of transports are sets of references.
 */
module Transports {
  import opened Wrappers
  import opened JavaStrings
  import opened Worlds
  import opened TransportTypes
  import opened VarRequirements
  import opened TransportItemsModel
  import opened TransportRecords
  import ItemRequirementParsing
  import SkillRequirementParsing
  import QuestParsing
  import VarRequirementParsing
  import WorldPointParsing

  /**
   * What the builder relies on that is not part of this model: the world-point services, the
   * skill and quest catalogues (`Skill.values()`, `Quest.values()` names), the `ItemVariations`
   * lookup, and the enum methods `TransportType.isTeleport()` and `TransportType.refine(levels)`.
   */
  datatype Catalog = Catalog(
    world: World,
    skillNames: seq<string>,
    questNames: seq<string>,
    variations: string -> Option<ItemRequirementParsing.Variation>,
    isTeleport: TransportType -> bool,
    refine: (TransportType, seq<int>) -> TransportType)

  /** The length of a skill-level array: every skill, then total level, combat level and quest points. */
  function Slots(c: Catalog): nat {
    |c.skillNames| + 3
  }

  /** The fields of a transport, or of a builder on its way to one, as one value. */
  datatype TransportFields = TransportFields(
    origin: int,
    destination: int,
    skillLevels: seq<int>,
    quests: set<nat>,
    itemRequirements: Option<TransportItems>,
    transportType: Option<TransportType>,
    duration: int,
    displayInfo: Option<string>,
    isConsumable: bool,
    maxWildernessLevel: int,
    objectInfo: Option<string>,
    varRequirements: set<VarRequirement>)

  /** Skill levels of the right length, none of them negative: what every builder keeps. */
  predicate WellFormed(c: Catalog, f: TransportFields) {
    |f.skillLevels| == Slots(c) && forall i :: 0 <= i < |f.skillLevels| ==> f.skillLevels[i] >= 0
  }

  /** A new builder: undefined ends, zero levels, no requirements, wilderness level -1. */
  function Initial(c: Catalog): (f: TransportFields)
    ensures WellFormed(c, f)
  {
    TransportFields(c.world.undefined, c.world.undefined, SkillRequirementParsing.Zeros(Slots(c)), {},
      None, None, 0, None, false, -1, None, {})
  }

  function MaxInt(a: int, b: int): int { if a >= b then a else b }

  /** `skillLevels(String)`: a parsed level replaces the current one only where it is positive. */
  function OverwritePositive(levels: seq<int>, parsed: seq<int>): (r: seq<int>)
    requires |parsed| == |levels|
  {
    seq(|levels|, i requires 0 <= i < |levels| => if parsed[i] > 0 then parsed[i] else levels[i])
  }

  /** `startSkillLevels(other)`: the element-wise maximum. */
  function MaxLevels(levels: seq<int>, other: seq<int>): (r: seq<int>)
    requires |other| == |levels|
  {
    seq(|levels|, i requires 0 <= i < |levels| => MaxInt(levels[i], other[i]))
  }

  /** `duration(String)`: an empty or unparsable text keeps the previous duration. */
  function DurationText(duration: int, value: string): (d: int)
    ensures ParseInt(value).None? ==> d == duration
    ensures ParseInt(value).Some? ==> d == ParseInt(value).value
  {
    if value == "" then duration
    else match ParseInt(value)
      case None => duration
      case Some(n) => n
  }

  /** `maxWildernessLevel(String)`: the same rule as the duration text. */
  function WildernessText(level: int, value: string): (l: int)
    ensures ParseInt(value).None? ==> l == level
    ensures ParseInt(value).Some? ==> l == ParseInt(value).value
  {
    if value == "" then level
    else match ParseInt(value)
      case None => level
      case Some(n) => n
  }

  /**
   * `isConsumable(String)`: "T", or "yes" up to `equalsIgnoreCase`, which takes the ASCII letters
   * in either case and the long s for the "s".
   */
  function ConsumableText(value: string): (b: bool)
    ensures ToLowerAscii(value) == "yes" ==> b
    ensures b ==> value == "T" || |value| == 3
  {
    || value == "T"
    || (&& |value| == 3
        && SameLetterIgnoringCase(value[0], 'y')
        && SameLetterIgnoringCase(value[1], 'e')
        && SameLetterIgnoringCase(value[2], 's'))
  }

  /** The twelve spellings `equalsIgnoreCase` takes for "yes". */
  function YesSpellings(): set<string> {
    {"yes", "yeS", "yEs", "yES", "Yes", "YeS", "YEs", "YES",
     "ye\U{17F}", "yE\U{17F}", "Ye\U{17F}", "YE\U{17F}"}
  }

  /** A cell marks a transport consumable exactly when it is "T" or one of the spellings of "yes". */
  lemma ConsumableSpellings(value: string)
    ensures ConsumableText(value) <==> value == "T" || value in YesSpellings()
  {
    if ConsumableText(value) && value != "T" {
      assert value == [value[0], value[1], value[2]];
    }
  }

  /** `build()`: teleports take at least one tick, and the type is refined by the skill levels. */
  function Built(c: Catalog, f: TransportFields): (t: TransportFields)
  {
    var duration := if f.transportType.Some? && c.isTeleport(f.transportType.value) then MaxInt(f.duration, 1) else f.duration;
    var transportType := if f.transportType.Some? then Some(c.refine(f.transportType.value, f.skillLevels)) else None;
    f.(duration := duration, transportType := transportType)
  }

  /** Records the end point a cell gives, or the NumberFormatException its parser throws. */
  function WithOrigin(c: Catalog, f: TransportFields, cell: string): Result<TransportFields> {
    match WorldPointParsing.Parse(c.world, Some(cell))
    case Ok(p) => Ok(f.(origin := p))
    case Err(e) => Err(e)
  }

  function WithDestination(c: Catalog, f: TransportFields, cell: string): Result<TransportFields> {
    match WorldPointParsing.Parse(c.world, Some(cell))
    case Ok(p) => Ok(f.(destination := p))
    case Err(e) => Err(e)
  }

  /** One column after the end points, applied as its builder setter does. */
  function SetColumn(c: Catalog, f: TransportFields, field: Field, cell: string): (g: TransportFields)
    requires |f.skillLevels| == Slots(c)
    ensures |g.skillLevels| == Slots(c)
  {
    match field
    case SKILLS => f.(skillLevels := OverwritePositive(f.skillLevels, SkillRequirementParsing.ParseSpec(c.skillNames, Some(cell))))
    case ITEMS => f.(itemRequirements := ItemRequirementParsing.ParseSpec(c.variations, Some(cell)))
    case QUESTS => f.(quests := f.quests + QuestParsing.ParseSpec(c.questNames, Some(cell)))
    case DURATION => f.(duration := DurationText(f.duration, cell))
    case DISPLAY_INFO => f.(displayInfo := Some(cell))
    case CONSUMABLE => f.(isConsumable := ConsumableText(cell))
    case WILDERNESS_LEVEL => f.(maxWildernessLevel := WildernessText(f.maxWildernessLevel, cell))
    case OBJECT_INFO => f.(objectInfo := Some(cell))
    case VARBITS => f.(varRequirements := f.varRequirements + VarRequirementParsing.ParseSpec(VARBIT, Some(cell)))
    case VAR_PLAYERS => f.(varRequirements := f.varRequirements + VarRequirementParsing.ParseSpec(VARPLAYER, Some(cell)))
    case _ => f
  }

  /** The cell of a column that `has` a value, else `None`. */
  function Cell(r: TransportRecord, field: Field): Option<string> {
    if Has(r, FieldName(field)) then Some(r.fields[FieldName(field)]) else None
  }

  /** A column is applied only when the record `has` it. */
  function Column(c: Catalog, f: TransportFields, r: TransportRecord, field: Field): (g: TransportFields)
    requires |f.skillLevels| == Slots(c)
    ensures |g.skillLevels| == Slots(c)
  {
    if Has(r, FieldName(field)) then SetColumn(c, f, field, r.fields[FieldName(field)]) else f
  }

  /** The columns after the two end points, in the order the record constructor applies them. */
  const RecordColumns: seq<Field> :=
    [SKILLS, ITEMS, QUESTS, DURATION, DISPLAY_INFO, CONSUMABLE, WILDERNESS_LEVEL, OBJECT_INFO, VARBITS, VAR_PLAYERS]

  /** The given columns applied in order. */
  function Columns(c: Catalog, f: TransportFields, r: TransportRecord, fields: seq<Field>): (g: TransportFields)
    requires |f.skillLevels| == Slots(c)
    ensures |g.skillLevels| == Slots(c)
  {
    if fields == [] then f
    else Column(c, Columns(c, f, r, fields[..|fields| - 1]), r, fields[|fields| - 1])
  }

  function WithColumns(c: Catalog, f: TransportFields, r: TransportRecord): (g: TransportFields)
    requires |f.skillLevels| == Slots(c)
    ensures |g.skillLevels| == Slots(c)
  {
    Columns(c, f, r, RecordColumns)
  }

  /**
   * The record constructor `Transport(record, type)`: origin and destination are parsed when their
   * column exists at all (an empty cell is the permutation marker), the other columns when they are
   * non-empty. A point that is not a number is the NumberFormatException the constructor throws.
   */
  function FromRecordSpec(c: Catalog, r: TransportRecord, transportType: TransportType): Result<TransportFields> {
    match WithEnds(c, Initial(c).(transportType := Some(transportType)), r)
    case Err(e) => Err(e)
    case Ok(g) => Ok(Built(c, WithColumns(c, g, r)))
  }

  /** The origin and then the destination, each parsed when its column exists. */
  function WithEnds(c: Catalog, f: TransportFields, r: TransportRecord): (g: Result<TransportFields>)
    ensures g.Ok? ==> g.value.skillLevels == f.skillLevels
  {
    var f1 := if HasKey(r, FieldName(ORIGIN)) then WithOrigin(c, f, r.fields[FieldName(ORIGIN)]) else Ok(f);
    match f1
    case Err(e) => Err(e)
    case Ok(g1) =>
      if HasKey(r, FieldName(DESTINATION)) then WithDestination(c, g1, r.fields[FieldName(DESTINATION)]) else Ok(g1)
  }

  /**
   * The merge constructor `Transport(origin, destination)` of an origin-only row and a
   * destination-only row, through the builder's accumulating setters.
   */
  function MergeSpec(c: Catalog, o: TransportFields, d: TransportFields): TransportFields
    requires WellFormed(c, o) && WellFormed(c, d)
  {
    var start := Initial(c);
    Built(c, TransportFields(
      o.origin,
      d.destination,
      MaxLevels(MaxLevels(start.skillLevels, o.skillLevels), d.skillLevels),
      o.quests + d.quests,
      d.itemRequirements,
      o.transportType,
      MaxInt(start.duration, MaxInt(o.duration, d.duration)),
      d.displayInfo,
      start.isConsumable || (o.isConsumable || d.isConsumable),
      MaxInt(start.maxWildernessLevel, MaxInt(o.maxWildernessLevel, d.maxWildernessLevel)),
      o.objectInfo,
      o.varRequirements + d.varRequirements))
  }

  function Varbits(reqs: set<VarRequirement>): set<VarRequirement> {
    set r | r in reqs && r.IsVarbit()
  }

  function VarPlayers(reqs: set<VarRequirement>): set<VarRequirement> {
    set r | r in reqs && r.IsVarPlayer()
  }

  class Transport {
    const origin: int
    const destination: int
    const skillLevels: seq<int>
    const quests: set<nat>
    const itemRequirements: Option<TransportItems>
    const transportType: Option<TransportType>
    const duration: int
    const displayInfo: Option<string>
    const isConsumable: bool
    const maxWildernessLevel: int
    const objectInfo: Option<string>
    const varRequirements: set<VarRequirement>

    /** The private constructor together with the field assignments `build` makes. */
    constructor (f: TransportFields)
      ensures Fields() == f
    {
      origin := f.origin;
      destination := f.destination;
      skillLevels := f.skillLevels;
      quests := f.quests;
      itemRequirements := f.itemRequirements;
      transportType := f.transportType;
      duration := f.duration;
      displayInfo := f.displayInfo;
      isConsumable := f.isConsumable;
      maxWildernessLevel := f.maxWildernessLevel;
      objectInfo := f.objectInfo;
      varRequirements := f.varRequirements;
    }

    function Fields(): TransportFields {
      TransportFields(origin, destination, skillLevels, quests, itemRequirements, transportType,
        duration, displayInfo, isConsumable, maxWildernessLevel, objectInfo, varRequirements)
    }

    /** `isQuestLocked()`: some quest is required. */
    function IsQuestLocked(): (b: bool)
      ensures b <==> exists q :: q in quests
    {
      quests != {}
    }

    /** `getVarbits()`: the varbit requirements, collected one by one. */
    method GetVarbits() returns (varbits: set<VarRequirement>)
      ensures varbits == Varbits(varRequirements)
    {
      varbits := {};
      var rest := varRequirements;
      while rest != {}
        invariant rest <= varRequirements
        invariant varbits == Varbits(varRequirements - rest)
        decreases |rest|
      {
        var req :| req in rest;
        if req.IsVarbit() {
          varbits := varbits + {req};
        }
        rest := rest - {req};
        assert Varbits(varRequirements - rest) == Varbits(varRequirements - (rest + {req})) + (if req.IsVarbit() then {req} else {});
      }
      assert varRequirements - rest == varRequirements;
    }

    /** `getVarPlayers()`: the varplayer requirements, collected one by one. */
    method GetVarPlayers() returns (varPlayers: set<VarRequirement>)
      ensures varPlayers == VarPlayers(varRequirements)
    {
      varPlayers := {};
      var rest := varRequirements;
      while rest != {}
        invariant rest <= varRequirements
        invariant varPlayers == VarPlayers(varRequirements - rest)
        decreases |rest|
      {
        var req :| req in rest;
        if req.IsVarPlayer() {
          varPlayers := varPlayers + {req};
        }
        rest := rest - {req};
        assert VarPlayers(varRequirements - rest) == VarPlayers(varRequirements - (rest + {req})) + (if req.IsVarPlayer() then {req} else {});
      }
      assert varRequirements - rest == varRequirements;
    }
  }

  /** `getVarbits` and `getVarPlayers` split the requirements into two disjoint parts. */
  lemma VarKindsPartition(reqs: set<VarRequirement>)
    ensures Varbits(reqs) + VarPlayers(reqs) == reqs
    ensures Varbits(reqs) * VarPlayers(reqs) == {}
  {
    forall r | r in reqs
      ensures r in Varbits(reqs) + VarPlayers(reqs)
    {
      KindIsExclusive(r);
    }
    forall r | r in Varbits(reqs) * VarPlayers(reqs)
      ensures false
    {
      KindIsExclusive(r);
    }
  }

  class TransportBuilder {
    const catalog: Catalog
    const skillLevels: array<int>
    var varRequirements: set<VarRequirement>
    var quests: set<nat>
    var origin: int
    var destination: int
    var itemRequirements: Option<TransportItems>
    var transportType: Option<TransportType>
    var duration: int
    var displayInfo: Option<string>
    var isConsumable: bool
    var maxWildernessLevel: int
    var objectInfo: Option<string>

    ghost predicate Valid() {
      skillLevels.Length == Slots(catalog)
    }

    /** The builder's fields as one value. */
    function State(): TransportFields
      reads this, skillLevels
    {
      TransportFields(origin, destination, skillLevels[..], quests, itemRequirements, transportType,
        duration, displayInfo, isConsumable, maxWildernessLevel, objectInfo, varRequirements)
    }

    constructor (catalog: Catalog)
      ensures Valid() && fresh(skillLevels)
      ensures State() == Initial(catalog) && this.catalog == catalog
    {
      this.catalog := catalog;
      skillLevels := new int[Slots(catalog)](i => 0);
      varRequirements := {};
      quests := {};
      origin := catalog.world.undefined;
      destination := catalog.world.undefined;
      itemRequirements := None;
      transportType := None;
      duration := 0;
      displayInfo := None;
      isConsumable := false;
      maxWildernessLevel := -1;
      objectInfo := None;
      new;
      assert skillLevels[..] == SkillRequirementParsing.Zeros(Slots(catalog));
    }

    method Origin(origin: int)
      modifies this
      ensures State() == old(State()).(origin := origin)
    {
      this.origin := origin;
    }

    /** `origin(String)`: `false` when the parser throws, and then nothing changes. */
    method OriginText(value: string) returns (ok: bool)
      modifies this
      ensures ok <==> WithOrigin(catalog, old(State()), value).Ok?
      ensures ok ==> State() == WithOrigin(catalog, old(State()), value).value
      ensures !ok ==> State() == old(State())
    {
      var p := WorldPointParsing.Parse(catalog.world, Some(value));
      if p.Err? {
        return false;
      }
      origin := p.value;
      return true;
    }

    method Destination(destination: int)
      modifies this
      ensures State() == old(State()).(destination := destination)
    {
      this.destination := destination;
    }

    /** `destination(String)`: `false` when the parser throws, and then nothing changes. */
    method DestinationText(value: string) returns (ok: bool)
      modifies this
      ensures ok <==> WithDestination(catalog, old(State()), value).Ok?
      ensures ok ==> State() == WithDestination(catalog, old(State()), value).value
      ensures !ok ==> State() == old(State())
    {
      var p := WorldPointParsing.Parse(catalog.world, Some(value));
      if p.Err? {
        return false;
      }
      destination := p.value;
      return true;
    }

    /** `skillLevels(String)`: the positive parsed levels overwrite the array in place. */
    method SkillLevelsText(value: string)
      requires Valid()
      modifies skillLevels
      ensures State() == old(State()).(skillLevels := OverwritePositive(old(skillLevels[..]), SkillRequirementParsing.ParseSpec(catalog.skillNames, Some(value))))
    {
      var parsedSkills := SkillRequirementParsing.Parse(catalog.skillNames, Some(value));
      ghost var before := skillLevels[..];
      ghost var after := OverwritePositive(before, parsedSkills[..]);
      ghost var parsed := parsedSkills[..];
      assert parsedSkills.Length == skillLevels.Length && parsedSkills != skillLevels;
      for i := 0 to skillLevels.Length
        invariant forall j :: 0 <= j < i ==> skillLevels[j] == after[j]
        invariant forall j :: i <= j < skillLevels.Length ==> skillLevels[j] == before[j]
        invariant parsedSkills[..] == parsed
      {
        if parsedSkills[i] > 0 {
          skillLevels[i] := parsedSkills[i];
        }
      }
      assert skillLevels[..] == after;
    }

    /** `startSkillLevels(other)`: each slot becomes the larger of the two. */
    method StartSkillLevels(other: seq<int>)
      requires Valid() && |other| == skillLevels.Length
      modifies skillLevels
      ensures State() == old(State()).(skillLevels := MaxLevels(old(skillLevels[..]), other))
    {
      ghost var before := skillLevels[..];
      ghost var after := MaxLevels(before, other);
      for i := 0 to skillLevels.Length
        invariant forall j :: 0 <= j < i ==> skillLevels[j] == after[j]
        invariant forall j :: i <= j < skillLevels.Length ==> skillLevels[j] == before[j]
      {
        skillLevels[i] := MaxInt(skillLevels[i], other[i]);
      }
      assert skillLevels[..] == after;
    }

    method Quests(quests: set<nat>)
      modifies this
      ensures State() == old(State()).(quests := old(this.quests) + quests)
    {
      this.quests := this.quests + quests;
    }

    method QuestsText(value: string)
      modifies this
      ensures State() == old(State()).(quests := old(quests) + QuestParsing.ParseSpec(catalog.questNames, Some(value)))
    {
      var parsed := QuestParsing.Parse(catalog.questNames, Some(value));
      quests := quests + parsed;
    }

    method ItemRequirements(itemRequirements: Option<TransportItems>)
      modifies this
      ensures State() == old(State()).(itemRequirements := itemRequirements)
    {
      this.itemRequirements := itemRequirements;
    }

    method ItemRequirementsText(value: string)
      modifies this
      ensures State() == old(State()).(itemRequirements := ItemRequirementParsing.ParseSpec(catalog.variations, Some(value)))
    {
      itemRequirements := ItemRequirementParsing.Parse(catalog.variations, Some(value));
    }

    method Type(transportType: Option<TransportType>)
      modifies this
      ensures State() == old(State()).(transportType := transportType)
    {
      this.transportType := transportType;
    }

    /** `duration(int)`: keeps the larger duration. */
    method Duration(duration: int)
      modifies this
      ensures State() == old(State()).(duration := MaxInt(old(this.duration), duration))
    {
      this.duration := MaxInt(this.duration, duration);
    }

    method DurationFromText(value: string)
      modifies this
      ensures State() == old(State()).(duration := DurationText(old(duration), value))
    {
      if value != "" {
        var parsed := ParseInt(value);
        if parsed.Some? {
          duration := parsed.value;
        }
      }
    }

    method DisplayInfo(displayInfo: Option<string>)
      modifies this
      ensures State() == old(State()).(displayInfo := displayInfo)
    {
      this.displayInfo := displayInfo;
    }

    /** `isConsumable(boolean)`: once consumable, always consumable. */
    method IsConsumable(isConsumable: bool)
      modifies this
      ensures State() == old(State()).(isConsumable := old(this.isConsumable) || isConsumable)
    {
      this.isConsumable := this.isConsumable || isConsumable;
    }

    method IsConsumableFromText(value: string)
      modifies this
      ensures State() == old(State()).(isConsumable := ConsumableText(value))
    {
      isConsumable := ConsumableText(value);
    }

    /** `maxWildernessLevel(int)`: keeps the larger level. */
    method MaxWildernessLevel(level: int)
      modifies this
      ensures State() == old(State()).(maxWildernessLevel := MaxInt(old(maxWildernessLevel), level))
    {
      maxWildernessLevel := MaxInt(maxWildernessLevel, level);
    }

    method MaxWildernessLevelFromText(value: string)
      modifies this
      ensures State() == old(State()).(maxWildernessLevel := WildernessText(old(maxWildernessLevel), value))
    {
      if value != "" {
        var parsed := ParseInt(value);
        if parsed.Some? {
          maxWildernessLevel := parsed.value;
        }
      }
    }

    method ObjectInfo(objectInfo: Option<string>)
      modifies this
      ensures State() == old(State()).(objectInfo := objectInfo)
    {
      this.objectInfo := objectInfo;
    }

    method VarRequirements(requirements: set<VarRequirement>)
      modifies this
      ensures State() == old(State()).(varRequirements := old(varRequirements) + requirements)
    {
      varRequirements := varRequirements + requirements;
    }

    method VarbitsText(value: string)
      modifies this
      ensures State() == old(State()).(varRequirements := old(varRequirements) + VarRequirementParsing.ParseSpec(VARBIT, Some(value)))
    {
      var parser := VarRequirementParsing.VarRequirementParser.ForVarbits();
      var parsed := parser.Parse(Some(value));
      varRequirements := varRequirements + parsed;
    }

    method VarPlayersText(value: string)
      modifies this
      ensures State() == old(State()).(varRequirements := old(varRequirements) + VarRequirementParsing.ParseSpec(VARPLAYER, Some(value)))
    {
      var parser := VarRequirementParsing.VarRequirementParser.ForVarPlayers();
      var parsed := parser.Parse(Some(value));
      varRequirements := varRequirements + parsed;
    }

    /** The record constructor's origin and destination lines; `false` where a parser throws. */
    method ApplyEnds(r: TransportRecord) returns (ok: bool)
      modifies this
      ensures ok <==> WithEnds(catalog, old(State()), r).Ok?
      ensures ok ==> State() == WithEnds(catalog, old(State()), r).value
    {
      if HasKey(r, FieldName(ORIGIN)) {
        ok := OriginText(r.fields[FieldName(ORIGIN)]);
        if !ok {
          return;
        }
      }
      if HasKey(r, FieldName(DESTINATION)) {
        ok := DestinationText(r.fields[FieldName(DESTINATION)]);
        if !ok {
          return;
        }
      }
      ok := true;
    }

    /** One `if (record.has(column)) builder.<setter>(cell)` line of the record constructor. */
    method ApplyColumn(r: TransportRecord, field: Field)
      requires Valid()
      modifies this, skillLevels
      ensures State() == Column(catalog, old(State()), r, field)
    {
      var name := FieldName(field);
      if !Has(r, name) {
        return;
      }
      var cell := r.fields[name];
      match field
      case SKILLS => SkillLevelsText(cell);
      case ITEMS => ItemRequirementsText(cell);
      case QUESTS => QuestsText(cell);
      case DURATION => DurationFromText(cell);
      case DISPLAY_INFO => DisplayInfo(Some(cell));
      case CONSUMABLE => IsConsumableFromText(cell);
      case WILDERNESS_LEVEL => MaxWildernessLevelFromText(cell);
      case OBJECT_INFO => ObjectInfo(Some(cell));
      case VARBITS => VarbitsText(cell);
      case VAR_PLAYERS => VarPlayersText(cell);
      case _ =>
    }

    /** The record constructor's `if (record.has(column))` lines for the given columns, in order. */
    method ApplyColumns(r: TransportRecord, fields: seq<Field>)
      requires Valid()
      modifies this, skillLevels
      ensures State() == Columns(catalog, old(State()), r, fields)
    {
      ghost var start := State();
      for i := 0 to |fields|
        invariant State() == Columns(catalog, start, r, fields[..i])
      {
        ApplyColumn(r, fields[i]);
        assert fields[..i + 1][..i] == fields[..i];
      }
      assert fields[..|fields|] == fields;
    }

    /** `build()`: a new transport holding the builder's fields, refined. */
    method Build() returns (t: Transport)
      ensures fresh(t) && t.Fields() == Built(catalog, State())
    {
      t := new Transport(Built(catalog, State()));
    }
  }

  /** The record constructor, through the builder; `Err` where it throws. */
  method FromRecord(c: Catalog, r: TransportRecord, transportType: TransportType) returns (result: Result<Transport>)
    ensures result.Ok? <==> FromRecordSpec(c, r, transportType).Ok?
    ensures result.Ok? ==> fresh(result.value) && result.value.Fields() == FromRecordSpec(c, r, transportType).value
  {
    var b := new TransportBuilder(c);
    b.Type(Some(transportType));
    var ok := b.ApplyEnds(r);
    if !ok {
      return Err(WorldPointParsing.NUMBER_FORMAT_ERROR);
    }
    b.ApplyColumns(r, RecordColumns);
    var t := b.Build();
    return Ok(t);
  }

  /** The merge constructor's builder chain, first part: the end points, the type and the skill levels. */
  method MergeEnds(b: TransportBuilder, o: Transport, d: Transport)
    requires b.Valid() && |o.skillLevels| == |d.skillLevels| == b.skillLevels.Length
    modifies b, b.skillLevels
    ensures b.State() == old(b.State()).(origin := o.origin, destination := d.destination, transportType := o.transportType,
      skillLevels := MaxLevels(MaxLevels(old(b.State()).skillLevels, o.skillLevels), d.skillLevels))
  {
    b.Origin(o.origin);
    b.Destination(d.destination);
    b.Type(o.transportType);
    b.StartSkillLevels(o.skillLevels);
    b.StartSkillLevels(d.skillLevels);
  }

  /** Second part: quests, item requirements, duration and display text. */
  method MergeRequirements(b: TransportBuilder, o: Transport, d: Transport)
    modifies b
    ensures b.State() == old(b.State()).(quests := old(b.quests) + o.quests + d.quests, itemRequirements := d.itemRequirements,
      duration := MaxInt(old(b.duration), MaxInt(o.duration, d.duration)), displayInfo := d.displayInfo)
  {
    b.Quests(o.quests);
    b.Quests(d.quests);
    b.ItemRequirements(d.itemRequirements);
    b.Duration(MaxInt(o.duration, d.duration));
    b.DisplayInfo(d.displayInfo);
  }

  /** Third part: consumability, wilderness limit, object text and variable requirements. */
  method MergeLimits(b: TransportBuilder, o: Transport, d: Transport)
    modifies b
    ensures b.State() == old(b.State()).(isConsumable := old(b.isConsumable) || (o.isConsumable || d.isConsumable),
      maxWildernessLevel := MaxInt(old(b.maxWildernessLevel), MaxInt(o.maxWildernessLevel, d.maxWildernessLevel)),
      objectInfo := o.objectInfo, varRequirements := old(b.varRequirements) + o.varRequirements + d.varRequirements)
  {
    b.IsConsumable(o.isConsumable || d.isConsumable);
    b.MaxWildernessLevel(MaxInt(o.maxWildernessLevel, d.maxWildernessLevel));
    b.ObjectInfo(o.objectInfo);
    b.VarRequirements(o.varRequirements);
    b.VarRequirements(d.varRequirements);
  }

  /** The merge constructor, through the builder. */
  method Merge(c: Catalog, o: Transport, d: Transport) returns (t: Transport)
    requires WellFormed(c, o.Fields()) && WellFormed(c, d.Fields())
    ensures fresh(t) && t.Fields() == MergeSpec(c, o.Fields(), d.Fields())
  {
    var b := new TransportBuilder(c);
    MergeEnds(b, o, d);
    MergeRequirements(b, o, d);
    MergeLimits(b, o, d);
    assert b.quests == {} + o.quests + d.quests;
    t := b.Build();
  }

  /**
   * A merged transport takes its origin, type and object text from the origin-only side, its
   * destination, items and display text from the destination-only side, and the union of both
   * sides' quests and variable requirements; it is consumable if either side is.
   */
  lemma MergeTakesEachSide(c: Catalog, o: TransportFields, d: TransportFields)
    requires WellFormed(c, o) && WellFormed(c, d)
    ensures var m := MergeSpec(c, o, d);
      && m.origin == o.origin && m.destination == d.destination
      && m.transportType == (if o.transportType.Some? then Some(c.refine(o.transportType.value, m.skillLevels)) else None)
      && m.itemRequirements == d.itemRequirements && m.displayInfo == d.displayInfo
      && m.objectInfo == o.objectInfo
      && m.quests == o.quests + d.quests
      && m.varRequirements == o.varRequirements + d.varRequirements
      && m.isConsumable == (o.isConsumable || d.isConsumable)
      && m.maxWildernessLevel == MaxInt(-1, MaxInt(o.maxWildernessLevel, d.maxWildernessLevel))
  {
  }

  /** Merged skill levels are the element-wise maximum of the two sides. */
  lemma MergedLevelsAreMax(c: Catalog, o: TransportFields, d: TransportFields)
    requires WellFormed(c, o) && WellFormed(c, d)
    ensures var m := MergeSpec(c, o, d);
      && WellFormed(c, m)
      && forall i :: 0 <= i < |m.skillLevels| ==> m.skillLevels[i] == MaxInt(o.skillLevels[i], d.skillLevels[i])
  {
  }

  /**
   * The merged duration is the longer of the two (durations are never negative in a row), raised
   * to one tick when the merged type is a teleport.
   */
  lemma MergedDuration(c: Catalog, o: TransportFields, d: TransportFields)
    requires WellFormed(c, o) && WellFormed(c, d) && o.duration >= 0 && d.duration >= 0
    ensures var m := MergeSpec(c, o, d);
      var longer := MaxInt(o.duration, d.duration);
      m.duration == if o.transportType.Some? && c.isTeleport(o.transportType.value) then MaxInt(longer, 1) else longer
  {
  }

  /** `build` makes every teleport take at least one tick and leaves other durations alone. */
  lemma BuiltTeleportTakesATick(c: Catalog, f: TransportFields)
    ensures f.transportType.Some? && c.isTeleport(f.transportType.value) ==> Built(c, f).duration >= 1 && Built(c, f).duration >= f.duration
    ensures !(f.transportType.Some? && c.isTeleport(f.transportType.value)) ==> Built(c, f).duration == f.duration
    ensures Built(c, f).transportType.Some? <==> f.transportType.Some?
  {
  }

  /** Applying a list of columns in two steps is applying them at once. */
  lemma {:induction false} ColumnsAppend(c: Catalog, f: TransportFields, r: TransportRecord, a: seq<Field>, b: seq<Field>)
    requires |f.skillLevels| == Slots(c)
    ensures Columns(c, f, r, a + b) == Columns(c, Columns(c, f, r, a), r, b)
    decreases |b|
  {
    if b == [] {
      assert a + b == a;
    } else {
      assert (a + b)[..|a + b| - 1] == a + b[..|b| - 1];
      ColumnsAppend(c, f, r, a, b[..|b| - 1]);
    }
  }

  /** Columns other than the skills column leave the skill levels alone. */
  lemma {:induction false} OtherColumnsKeepLevels(c: Catalog, f: TransportFields, r: TransportRecord, fields: seq<Field>)
    requires |f.skillLevels| == Slots(c)
    requires forall i :: 0 <= i < |fields| ==> fields[i] != SKILLS
    ensures Columns(c, f, r, fields).skillLevels == f.skillLevels
    decreases |fields|
  {
    if fields != [] {
      OtherColumnsKeepLevels(c, f, r, fields[..|fields| - 1]);
    }
  }

  /**
   * A transport read from a row needs, in each slot, the level its skills cell gives there when
   * that level is positive, and no level otherwise; so no requirement is negative.
   */
  lemma RecordLevels(c: Catalog, r: TransportRecord, transportType: TransportType)
    requires FromRecordSpec(c, r, transportType).Ok?
    ensures var t := FromRecordSpec(c, r, transportType).value;
      var parsed := SkillRequirementParsing.ParseSpec(c.skillNames, Cell(r, SKILLS));
      && WellFormed(c, t)
      && forall i :: 0 <= i < |t.skillLevels| ==>
           t.skillLevels[i] == (if Cell(r, SKILLS).Some? && parsed[i] > 0 then parsed[i] else 0)
  {
    var f := Initial(c).(transportType := Some(transportType));
    var g := WithEnds(c, f, r).value;
    ColumnsAppend(c, g, r, [SKILLS], RecordColumns[1..]);
    assert [SKILLS] + RecordColumns[1..] == RecordColumns;
    assert Columns(c, g, r, [SKILLS]) == Column(c, g, r, SKILLS) by {
      assert [SKILLS][..0] == [];
    }
    OtherColumnsKeepLevels(c, Columns(c, g, r, [SKILLS]), r, RecordColumns[1..]);
  }

  /** The end points of a row: a missing column leaves the point undefined, an empty cell is the permutation marker. */
  lemma RecordEnds(c: Catalog, r: TransportRecord, transportType: TransportType)
    requires FromRecordSpec(c, r, transportType).Ok?
    ensures var t := FromRecordSpec(c, r, transportType).value;
      && (!HasKey(r, FieldName(ORIGIN)) ==> t.origin == c.world.undefined)
      && (HasKey(r, FieldName(ORIGIN)) && r.fields[FieldName(ORIGIN)] == "" ==> t.origin == LocationPermutation(c.world))
      && (!HasKey(r, FieldName(DESTINATION)) ==> t.destination == c.world.undefined)
      && (HasKey(r, FieldName(DESTINATION)) && r.fields[FieldName(DESTINATION)] == "" ==> t.destination == LocationPermutation(c.world))
  {
    var f := Initial(c).(transportType := Some(transportType));
    var g := WithEnds(c, f, r).value;
    OtherColumnsKeepEnds(c, g, r, RecordColumns);
  }

  /** No column after the end points changes them. */
  lemma {:induction false} OtherColumnsKeepEnds(c: Catalog, f: TransportFields, r: TransportRecord, fields: seq<Field>)
    requires |f.skillLevels| == Slots(c)
    requires forall i :: 0 <= i < |fields| ==> fields[i] != ORIGIN && fields[i] != DESTINATION
    ensures Columns(c, f, r, fields).origin == f.origin && Columns(c, f, r, fields).destination == f.destination
    decreases |fields|
  {
    if fields != [] {
      OtherColumnsKeepEnds(c, f, r, fields[..|fields| - 1]);
    }
  }

  /** A row's requirements are read from its own cells: its quests are those the quests cell names. */
  lemma RecordQuests(c: Catalog, r: TransportRecord, transportType: TransportType)
    requires FromRecordSpec(c, r, transportType).Ok?
    ensures FromRecordSpec(c, r, transportType).value.quests == QuestParsing.ParseSpec(c.questNames, Cell(r, QUESTS))
  {
    var f := Initial(c).(transportType := Some(transportType));
    var g := WithEnds(c, f, r).value;
    assert g.quests == {};
    var front := RecordColumns[..3];
    var back := RecordColumns[3..];
    assert front + back == RecordColumns;
    ColumnsAppend(c, g, r, front, back);
    OtherColumnsKeepQuests(c, Columns(c, g, r, front), r, back);
    assert front == [SKILLS, ITEMS, QUESTS] && front[..2] == [SKILLS, ITEMS];
    OtherColumnsKeepQuests(c, g, r, [SKILLS, ITEMS]);
    assert Columns(c, g, r, front) == Column(c, Columns(c, g, r, [SKILLS, ITEMS]), r, QUESTS);
  }

  /** Columns other than the quests column leave the quests alone. */
  lemma {:induction false} OtherColumnsKeepQuests(c: Catalog, f: TransportFields, r: TransportRecord, fields: seq<Field>)
    requires |f.skillLevels| == Slots(c)
    requires forall i :: 0 <= i < |fields| ==> fields[i] != QUESTS
    ensures Columns(c, f, r, fields).quests == f.quests
    decreases |fields|
  {
    if fields != [] {
      OtherColumnsKeepQuests(c, f, r, fields[..|fields| - 1]);
    }
  }
}
