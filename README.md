# Shortest-path plugin core, modelled in Dafny

This project models the route-finding core of the RuneLite "shortest path" plugin and proves properties of the model.

The model covers:

- **Transport tables.** Tab-separated transport tables are read into records (`TsvParsing`, `TransportRecords`). Their field grammars are parsed: items (`ItemRequirementParsing`), skill levels (`SkillRequirementParsing`), variable requirements (`VarRequirementParsing`), world points (`WorldPointParsing`) and quests (`QuestParsing`).
- **Transports.** The records become `Transport` objects through `TransportBuilder`, including the merge of an origin-only row with a destination-only row (`Transports`). `TransportLoading` loads each table into the map of transports keyed by origin.
- **Requirement values.** `ItemRequirements`, `TransportItemsModel`, `VarRequirements` and `VarCheckTypes` model the values a transport demands. The per-type switches and costs are in `TransportTypes` and `TransportTypeConfigs`.
- **Eligibility.** `PathfinderConfig` decides which transports the player may use. The decision table is in `TransportRules` and the item check in `ItemChecks`. `PathfinderConfigs` holds the object that rebuilds the usable map on `refresh` and only adds to it during a search: on a bank visit and when the wilderness level drops.
- **Search.** `Pathfinder` is the dual-queue search: a FIFO queue for walking steps and a cost-ordered queue for transport steps. Its backward-linked nodes are in `Nodes`.
- **Collision regions.** `SplitFlagMaps` covers the region index of the collision data.
- **Bank pickups.** `BankPickups` is the advice on what to take out of the bank along a path.
- **Legacy classes.** The older parallel classes still in the repository are `LegacyTransportTypes`, `LegacyVarPlayers`, `LegacyVarRequirementParsing`, `LegacyParsers` and `TransportIds`.

**How the source is represented:**

- **Java semantics.** `JavaInts` and `JavaStrings` write out the Java `int` arithmetic, `String.split`, `String.replace`, `trim` and `Scanner` line splitting that the parsers rely on. `Integer.parseInt`, `toUpperCase` and `toLowerCase` are modelled on ASCII only, as listed under "Left out".
- **Code outside the model.** Services whose code is not part of this model are fields of a `World` value (`Worlds`): `WorldPointUtil`, `WildernessChecker`, `isInsidePoh` and the collision map's neighbours. `ShortestPathPlugin.override` is folded into the per-type answers of the configuration (`TransportTypeConfigs.Settings`). Client state (containers, varbits, varplayers, quest states, boosted levels) is a snapshot value.
- **Classes and values.** Objects the source updates in place are Dafny classes: `Transport` (by reference, since it has no `equals`), `TransportBuilder`, `TransportTypeConfig`, `PathfinderConfig`, `Pathfinder`, `SplitFlagMap` and `VarRequirementParser`. Everything else is a value.

## Model

| member | source | states |
|---|---|---|
| TsvParsing.ParseLine | src/main/java/shortestpath/transport/parser/TsvParser.java:69-81 | the record is `RecordOf(line, headers)`: column `i` is stored under `headers[i]` when the line, split on tabs keeping trailing empty cells, has a cell `i` |
| TsvParsing.Parse | src/main/java/shortestpath/transport/parser/TsvParser.java:23-51 | the records are `ParseSpec(contents)`: none for text without lines, else the header comes from the first line and each later line that is neither "#"-prefixed nor blank gives one record, in order |
| TsvParsing.PutColumnsKeys | src/main/java/shortestpath/transport/parser/TsvParser.java:74-78 | a name is a key of the record exactly when some column `i` that has a cell on the line carries that name |
| TsvParsing.PutColumnsValues | src/main/java/shortestpath/transport/parser/TsvParser.java:74-78 | with distinct column names, column `i`'s name maps to cell `i` |
| TsvParsing.DataRecordsAppend | src/main/java/shortestpath/transport/parser/TsvParser.java:36-47 | the records of two consecutive runs of lines are the records of the first run followed by those of the second |
| TsvParsing.SkippedLineIgnored | src/main/java/shortestpath/transport/parser/TsvParser.java:39-41 | a comment or blank line anywhere among the data lines adds no record |
| TsvParsing.OneRecordPerDataLine | src/main/java/shortestpath/transport/parser/TsvParser.java:36-47 | the number of records equals the number of data lines that are neither comments nor blank |
| TsvParsing.LinesOfJoin | src/main/java/shortestpath/transport/parser/TsvParser.java:25-37 | lines without terminators, joined by "\n", are read back one for one by the Scanner line loop |
| TsvParsing.RecordOfJoinedCells | src/main/java/shortestpath/transport/parser/TsvParser.java:69-81 | a line made of tab-joined cells, one per distinct column name, becomes the record whose keys are exactly the column names and which maps each name to its cell |
| TsvParsing.RowLineKept | src/main/java/shortestpath/transport/parser/TsvParser.java:39-41 | the line of a well-formed row is neither a comment nor blank, so it is not skipped |
| TsvParsing.RowRecords | src/main/java/shortestpath/transport/parser/TsvParser.java:36-47 | well-formed row lines give one record per row, in order, each mapping every column name to that row's cell |
| TsvParsing.ParseFormattedFile | src/main/java/shortestpath/transport/parser/TsvParser.java:23-81 | round trip: a file written as a "# " header line and one tab-separated line per row parses back to exactly one record per row holding that row's cells under the column names |
| TransportRecords.FieldNamesDistinct | src/main/java/shortestpath/transport/parser/TransportRecord.java:143-156 | the twelve standard column names are pairwise distinct |
| TransportRecords.Get | src/main/java/shortestpath/transport/parser/TransportRecord.java:22-24 | a value is returned exactly when the column is present, and it is that column's cell (`None` stands for `null`) |
| TransportRecords.GetField | src/main/java/shortestpath/transport/parser/TransportRecord.java:52-131 | each named getter is `get` of its standard column name |
| TransportRecords.GetOrDefaultAgreesWithHas | src/main/java/shortestpath/transport/parser/TransportRecord.java:29-47 | `getOrDefault` gives the cell exactly when `has` holds and the default otherwise; `has` means `hasKey` with a non-empty cell |
| WorldPointParsing.Parse | src/main/java/shortestpath/transport/parser/WorldPointParser.java:16-25 | an absent or empty cell, or one that does not split into exactly three space-separated parts, is the location-permutation marker; the result is an error (NumberFormatException) exactly when there are three parts and one of them is not an int |
| WorldPointParsing.ParseFormat | src/main/java/shortestpath/transport/parser/WorldPointParser.java:16-25 | round trip: a point written as `x y plane` with int coordinates parses to the packed point of those coordinates |
| WorldPointParsing.SingleNumberIsPermutation | src/main/java/shortestpath/transport/parser/WorldPointParser.java:20-24 | a cell holding a single number is not a point and reads as the permutation marker |
| QuestParsing.FirstNamedFrom | src/main/java/shortestpath/transport/parser/QuestParser.java:26-31 | the inner search finds the first quest at or after the start whose name equals the given name, and finds none exactly when no later quest has that name |
| QuestParsing.Parse | src/main/java/shortestpath/transport/parser/QuestParser.java:18-34 | the set is `ParseSpec`: empty for an absent or empty cell, else for each ';'-separated name the first quest of that name |
| QuestParsing.QuestsNamedIff | src/main/java/shortestpath/transport/parser/QuestParser.java:24-32 | a quest is selected exactly when one of the names equals its name and no earlier quest has that name |
| QuestParsing.ParseSelectsNamedQuests | src/main/java/shortestpath/transport/parser/QuestParser.java:18-34 | with distinct quest names, a quest is in the result exactly when its name is one of the cell's names |
| SkillRequirementParsing.ApplyEntry | src/main/java/shortestpath/transport/parser/SkillRequirementParser.java:42-59 | one entry sets every skill slot of that name to the level and leaves the others; names starting with "total", "combat", "quest" (ASCII case-insensitive) set the three extra slots |
| SkillRequirementParsing.ReadEntries | src/main/java/shortestpath/transport/parser/SkillRequirementParser.java:28-63 | the result has one slot per skill plus three, whatever the entries |
| SkillRequirementParsing.Parse | src/main/java/shortestpath/transport/parser/SkillRequirementParser.java:19-66 | the fresh array holds `ParseSpec(skillNames, value)` |
| SkillRequirementParsing.WriteEntry | src/main/java/shortestpath/transport/parser/SkillRequirementParser.java:42-59 | the array afterwards is `ApplyEntry` of its old contents |
| SkillRequirementParsing.EmptyIsZeros | src/main/java/shortestpath/transport/parser/SkillRequirementParser.java:20-32 | an absent cell and an empty cell both give all zeros |
| SkillRequirementParsing.SingleSkillEntry | src/main/java/shortestpath/transport/parser/SkillRequirementParser.java:29-48 | a cell `level name` for a one-word skill name sets that skill's slot to the level and leaves every skill with another name at zero |
| SkillRequirementParsing.MultiWordNameIsSkipped | src/main/java/shortestpath/transport/parser/SkillRequirementParser.java:33-37 | an entry whose name has two words splits into three tokens and is skipped, leaving every slot at zero |
| SkillRequirementParsing.TotalLevelIsSkipped | src/main/java/shortestpath/transport/parser/SkillRequirementParser.java:33-37 | the special name "Total level" is such a two-word name, so `70 Total level` sets nothing |
| SkillRequirementParsing.TotalPrefixSetsTotalSlot | src/main/java/shortestpath/transport/parser/SkillRequirementParser.java:49-51 | a one-word name starting with "total" in any ASCII case sets the total-level slot |
| SkillRequirementParsing.NumberErrorKeepsEarlier | src/main/java/shortestpath/transport/parser/SkillRequirementParser.java:39-63 | a level that is not a number ends the parse: the slots keep what the earlier entries wrote and later entries are never read |
| SkillRequirementParsing.LaterEntryOverwrites | src/main/java/shortestpath/transport/parser/SkillRequirementParser.java:42-48 | a later entry for the same name overwrites the level an earlier one wrote |
| VarCheckTypes.Code | src/main/java/shortestpath/transport/parser/VarCheckType.java:10-14 | each code is one character that is neither a digit, '-', nor ';' |
| VarCheckTypes.CodesDistinct | src/main/java/shortestpath/transport/parser/VarCheckType.java:10-14 | the five codes are pairwise distinct and all five constants are tried |
| VarRequirements.Check | src/main/java/shortestpath/transport/parser/VarRequirement.java:56-76 | false when the variable has no current value; otherwise EQUAL, GREATER and SMALLER compare the current value with the constant, and COOLDOWN_MINUTES holds when more than the constant's minutes passed since the stored minute |
| VarRequirements.BitSetMeansSharedBit | src/main/java/shortestpath/transport/parser/VarRequirement.java:69-70 | with a non-negative mask, BIT_SET holds exactly when the current value's 32-bit pattern shares a set bit with the mask |
| VarRequirements.KindIsExclusive | src/main/java/shortestpath/transport/parser/VarRequirement.java:78-84 | exactly one of `isVarbit` and `isVarPlayer` holds |
| VarRequirements.EqualsIsValueEquality | src/main/java/shortestpath/transport/parser/VarRequirement.java:86-101 | `equals` holds exactly for requirements with the same four fields, and equal requirements have the same `hashCode` |
| VarRequirementParsing.VarRequirementParser.constructor | src/main/java/shortestpath/transport/parser/VarRequirementParser.java:26-28 | the parser keeps the variable type it is given |
| VarRequirementParsing.VarRequirementParser.ForVarbits | src/main/java/shortestpath/transport/parser/VarRequirementParser.java:33-35 | a new parser for varbits |
| VarRequirementParsing.VarRequirementParser.ForVarPlayers | src/main/java/shortestpath/transport/parser/VarRequirementParser.java:40-42 | a new parser for varplayers |
| VarRequirementParsing.VarRequirementParser.Parse | src/main/java/shortestpath/transport/parser/VarRequirementParser.java:45-66 | the set is `ParseSpec`: empty for an absent or empty cell; else the ';'-separated entries in order, empty and unmatched ones skipped, and a NumberFormatException ends the loop keeping what was added |
| VarRequirementParsing.VarRequirementParser.ParseRequirement | src/main/java/shortestpath/transport/parser/VarRequirementParser.java:68-79 | the outcome is `ReadEntry` over the check types in declaration order: the first code that splits the entry into two parts decides, and a part that is not an int is a number error |
| VarRequirementParsing.FormatReadsBack | src/main/java/shortestpath/transport/parser/VarRequirementParser.java:68-79 | an entry written as `<id><code><value>` reads back as that requirement, since no other code occurs in it |
| VarRequirementParsing.ReadFormattedEntries | src/main/java/shortestpath/transport/parser/VarRequirementParser.java:52-61 | formatted entries of one variable type read back as exactly the set of those requirements |
| VarRequirementParsing.SplitFormatted | src/main/java/shortestpath/transport/parser/VarRequirementParser.java:52 | formatted entries joined by ';' split back into the same entries |
| VarRequirementParsing.ParseFormatted | src/main/java/shortestpath/transport/parser/VarRequirementParser.java:45-79 | round trip, first half: requirements written in the documented format and joined by ';' are split back into exactly their formatted entries, which are then read one by one; with `ReadFormattedEntries` the text parses back to exactly the set of those requirements |
| VarRequirementParsing.NumberErrorKeepsEarlier | src/main/java/shortestpath/transport/parser/VarRequirementParser.java:51-64 | an entry with a number error abandons the entries after it but keeps the ones before |
| VarRequirementParsing.ParsedCarryVarType | src/main/java/shortestpath/transport/parser/VarRequirementParser.java:45-79 | every parsed requirement carries the parser's variable type |
| VarRequirementParsing.NoCodeIsUnmatched | src/main/java/shortestpath/transport/parser/VarRequirementParser.java:69-78 | an entry that contains none of the five codes is skipped |
| ItemRequirements.ElementsHash | src/main/java/shortestpath/transport/requirement/ItemRequirement.java:66 | `Arrays.hashCode` of the elements is always an int (the factor-31 sum wraps around) |
| ItemRequirements.ArraysEqualsIsEquality | src/main/java/shortestpath/transport/requirement/ItemRequirement.java:59-61 | `Arrays.equals` holds exactly when both references are `null` or both hold the same elements |
| ItemRequirements.Of | src/main/java/shortestpath/transport/requirement/ItemRequirement.java:42-44 | one item id, empty staff and offhand arrays, and the quantity |
| ItemRequirements.HashCode | src/main/java/shortestpath/transport/requirement/ItemRequirement.java:65-71 | the hash code is an int |
| ItemRequirements.EqualsIsValueEquality | src/main/java/shortestpath/transport/requirement/ItemRequirement.java:53-62 | `equals` holds exactly for requirements with equal quantities and element-wise equal arrays, and never for `null` |
| ItemRequirements.HashConsistentWithEquals | src/main/java/shortestpath/transport/requirement/ItemRequirement.java:53-71 | requirements that are `equals` have the same `hashCode` |
| ItemRequirements.OfIsOfArrays | src/main/java/shortestpath/transport/requirement/ItemRequirement.java:42-51 | `of(id, quantity)` is the array factory over a one-element item array and empty substitute arrays, with the hash code that follows from that |
| ItemRequirementParsing.ReadAlternative | src/main/java/shortestpath/transport/parser/ItemRequirementParser.java:69-88 | an alternative is read only when it splits on '=' into exactly two parts whose second part is an int quantity; a name the lookup does not know must itself be an int and becomes a single raw item id with no staves or offhands |
| ItemRequirementParsing.ReadAlternatives | src/main/java/shortestpath/transport/parser/ItemRequirementParser.java:66-89 | the group's quantity never falls below the starting -1 |
| ItemRequirementParsing.ReadRequirements | src/main/java/shortestpath/transport/parser/ItemRequirementParser.java:40-47 | when every '&' part is well formed, there is one requirement per part |
| ItemRequirementParsing.ParseSpec | src/main/java/shortestpath/transport/parser/ItemRequirementParser.java:25-28 | an absent or empty cell gives `null` |
| ItemRequirementParsing.ParseRequirement | src/main/java/shortestpath/transport/parser/ItemRequirementParser.java:60-97 | the result is `ReadRequirement`: the alternatives' ids, staves and offhands concatenated in order, with the largest quantity, or `None` where a NumberFormatException is thrown |
| ItemRequirementParsing.Parse | src/main/java/shortestpath/transport/parser/ItemRequirementParser.java:25-54 | the result is `ParseSpec`: `null` for an absent or empty cell, for any malformed part, or for no parts; else one requirement per '&' part of the normalised cell |
| ItemRequirementParsing.EachAndPartOneRequirement | src/main/java/shortestpath/transport/parser/ItemRequirementParser.java:40-49 | a successful parse holds exactly one requirement per '&' part of the normalised cell, in order, and at least one |
| ItemRequirementParsing.RequirementsInOrder | src/main/java/shortestpath/transport/parser/ItemRequirementParser.java:40-53 | requirement `i` is read from part `i`, and the whole parse fails exactly when some part is malformed |
| ItemRequirementParsing.GroupQuantityIsMax | src/main/java/shortestpath/transport/parser/ItemRequirementParser.java:66-76 | a group's quantity is at least every alternative's quantity and at least -1, and equals -1 or one of the alternatives' quantities |
| ItemRequirementParsing.UnknownNameIsRawId | src/main/java/shortestpath/transport/parser/ItemRequirementParser.java:83-87 | an alternative `id=quantity` whose name the lookup does not know reads as that raw item id with no substitutes |
| ItemRequirementParsing.LoneBarIsEmptyGroup | src/main/java/shortestpath/transport/parser/ItemRequirementParser.java:61-96 | a lone "\|" splits into no alternatives, giving an empty group with quantity -1 |
| ItemRequirementParsing.LoneAmpersandIsNull | src/main/java/shortestpath/transport/parser/ItemRequirementParser.java:40-49 | a cell that is only "&" splits into no parts and parses to `null` |
| ItemRequirementParsing.ReadFormattedRequirement | src/main/java/shortestpath/transport/parser/ItemRequirementParser.java:60-97 | a single `id=quantity` for an unknown name reads back as `ItemRequirement.of(id, quantity)` |
| ItemRequirementParsing.ReadFormattedRequirements | src/main/java/shortestpath/transport/parser/ItemRequirementParser.java:40-47 | formatted single-item parts read back as the list of single-item requirements |
| ItemRequirementParsing.ParseFormatted | src/main/java/shortestpath/transport/parser/ItemRequirementParser.java:25-97 | round trip: a cell `id=q&id=q…` of raw ids the lookup does not know parses to one single-item requirement per entry, in order |
| TransportItemsModel.OfList | src/main/java/shortestpath/transport/requirement/TransportItems.java:17-19 | the requirements are the list's, in order |
| TransportItemsModel.FromArrays | src/main/java/shortestpath/transport/requirement/TransportItems.java:24-35 | the legacy constructor builds one requirement per item row; a missing or `null` staff or offhand row becomes an empty array |
| TransportItemsModel.GetItems | src/main/java/shortestpath/transport/requirement/TransportItems.java:73-79 | entry `i` is requirement `i`'s item array |
| TransportItemsModel.GetStaves | src/main/java/shortestpath/transport/requirement/TransportItems.java:81-87 | entry `i` is requirement `i`'s staff array |
| TransportItemsModel.GetOffhands | src/main/java/shortestpath/transport/requirement/TransportItems.java:89-95 | entry `i` is requirement `i`'s offhand array |
| TransportItemsModel.GetQuantities | src/main/java/shortestpath/transport/requirement/TransportItems.java:97-103 | entry `i` is requirement `i`'s quantity |
| TransportItemsModel.LegacyColumnsRoundTrip | src/main/java/shortestpath/transport/requirement/TransportItems.java:24-103 | round trip: the legacy getters give back the rows the legacy constructor was built from (empty arrays for missing staff or offhand rows), each `size()` long |
| TransportItemsModel.ColumnsRebuild | src/main/java/shortestpath/transport/requirement/TransportItems.java:24-103 | the legacy getters' columns rebuild the same requirements |
| TransportItemsModel.Merge | src/main/java/shortestpath/transport/requirement/TransportItems.java:126-133 | `null` on either side gives the other; else the first's requirements followed by the second's |
| TransportItemsModel.MergeIsMonoid | src/main/java/shortestpath/transport/requirement/TransportItems.java:126-133 | merging is associative and `null` is its identity on both sides |
| TransportItemsModel.EqualsTo | src/main/java/shortestpath/transport/requirement/TransportItems.java:135-146 | as written, `null` and an object of another class throw; for a `TransportItems` the loop answers true exactly when both hold the same requirements in the same order |
| TransportItemsModel.EqualsObjectContract | src/main/java/shortestpath/transport/requirement/TransportItems.java:135-146 | the corrected `equals` answers false for `null` and another class, is reflexive and symmetric, and is value equality |
| TransportItemsModel.EqualsIsValueEquality | src/main/java/shortestpath/transport/requirement/TransportItems.java:135-146 | same size and pairwise `equals` requirements is value equality |
| TransportTypes.AllTypesListsEachOnce | src/main/java/shortestpath/transport/TransportType.java:6-31 | `values()` lists each of the 24 constants exactly once |
| TransportTypes.ResourcePath | src/main/java/shortestpath/transport/TransportType.java:7-47 | every type but GRAPPLE_SHORTCUT has a resource path, and each path is "/transports/….tsv" |
| TransportTypes.RadiusThreshold | src/main/java/shortestpath/transport/TransportType.java:15-51 | only gnome gliders, hot air balloons, magic mushtrees and spirit trees have a radius threshold, between 5 and 7 |
| TransportTypes.IsTeleport | src/main/java/shortestpath/transport/TransportType.java:59-71 | true exactly for item, minigame and spell teleports; false for `null` |
| TransportTypes.TeleportsHaveFilesAndNoRadius | src/main/java/shortestpath/transport/TransportType.java:7-71 | every teleport type is loaded from a file and has no radius threshold |
| TransportTypeConfigs.EnabledState | src/main/java/shortestpath/transport/TransportTypeConfig.java:68-83 | the two teleport-item types are enabled exactly when the teleportation-item setting is not NONE; any other type without an enabled getter is always enabled, and with one it takes the configured value |
| TransportTypeConfigs.CostThreshold | src/main/java/shortestpath/transport/TransportTypeConfig.java:89-97 | a type without a cost getter costs 0 extra; otherwise the configured cost |
| TransportTypeConfigs.TeleportItemTypesFollowSetting | src/main/java/shortestpath/transport/TransportTypeConfig.java:68-74 | item teleports and teleportation boxes are always switched together, and NONE is the only setting that turns them off |
| TransportTypeConfigs.TransportTypeConfig.IsEnabled | src/main/java/shortestpath/transport/TransportTypeConfig.java:102-104 | an unmapped type is enabled; a mapped one has its stored flag |
| TransportTypeConfigs.TransportTypeConfig.GetCost | src/main/java/shortestpath/transport/TransportTypeConfig.java:109-111 | an unmapped type costs 0; a mapped one has its stored cost |
| TransportTypeConfigs.TransportTypeConfig.constructor | src/main/java/shortestpath/transport/TransportTypeConfig.java:41-44 | a new configuration is refreshed: every type is mapped to the state and cost the settings give it |
| TransportTypeConfigs.TransportTypeConfig.Refresh | src/main/java/shortestpath/transport/TransportTypeConfig.java:50-59 | afterwards every type is mapped, each to the enabled state and cost threshold the settings give it, undoing run-time changes; the teleportation-item setting is re-read |
| TransportTypeConfigs.TransportTypeConfig.SetEnabled | src/main/java/shortestpath/transport/TransportTypeConfig.java:117-119 | only the given type's flag changes, to the given value; costs and the setting are unchanged |
| TransportTypeConfigs.TransportTypeConfig.DisableUnless | src/main/java/shortestpath/transport/TransportTypeConfig.java:125-129 | a true condition changes nothing; a false one disables that type alone, so it is enabled afterwards exactly when it was before and the condition holds |
| Transports.Initial | src/main/java/shortestpath/transport/Transport.java:215-233 | a new builder's fields are well formed: one non-negative level per skill slot, all zero |
| Transports.DurationText | src/main/java/shortestpath/transport/Transport.java:302-311 | an empty or unparsable duration cell keeps the previous duration, a number replaces it |
| Transports.WildernessText | src/main/java/shortestpath/transport/Transport.java:333-342 | an empty or unparsable wilderness cell keeps the previous level, a number replaces it |
| Transports.ConsumableText | src/main/java/shortestpath/transport/Transport.java:323-326 | "yes" in any ASCII letter case marks the transport consumable, and only "T" or a three-character cell can |
| Transports.ConsumableSpellings | src/main/java/shortestpath/transport/Transport.java:323-326 | a cell marks the transport consumable exactly when it is "T" or one of the twelve spellings `equalsIgnoreCase` takes for "yes": each ASCII letter in either case, and the long s (U+017F) for the "s" |
| Transports.Transport.constructor | src/main/java/shortestpath/transport/Transport.java:365-378 | a new transport holds exactly the fields it is given |
| Transports.Transport.IsQuestLocked | src/main/java/shortestpath/transport/Transport.java:183-185 | true exactly when some quest is required |
| Transports.Transport.GetVarbits | src/main/java/shortestpath/transport/Transport.java:191-199 | returns exactly the varbit requirements among the transport's requirements |
| Transports.Transport.GetVarPlayers | src/main/java/shortestpath/transport/Transport.java:205-213 | returns exactly the varplayer requirements among the transport's requirements |
| Transports.VarKindsPartition | src/main/java/shortestpath/transport/Transport.java:191-213 | the varbit and varplayer requirements are disjoint and together are all of them |
| Transports.TransportBuilder.constructor | src/main/java/shortestpath/transport/Transport.java:215-233 | a new builder starts from undefined end points, zero levels, no requirements and wilderness level -1 |
| Transports.TransportBuilder.Origin | src/main/java/shortestpath/transport/Transport.java:235-238 | sets the origin and nothing else |
| Transports.TransportBuilder.OriginText | src/main/java/shortestpath/transport/Transport.java:240-243 | sets the parsed origin; reports the parser's exception and then changes nothing |
| Transports.TransportBuilder.Destination | src/main/java/shortestpath/transport/Transport.java:245-248 | sets the destination and nothing else |
| Transports.TransportBuilder.DestinationText | src/main/java/shortestpath/transport/Transport.java:250-253 | sets the parsed destination; reports the parser's exception and then changes nothing |
| Transports.TransportBuilder.SkillLevelsText | src/main/java/shortestpath/transport/Transport.java:255-263 | each positive parsed level overwrites its slot in place; other slots and fields are unchanged |
| Transports.TransportBuilder.StartSkillLevels | src/main/java/shortestpath/transport/Transport.java:265-270 | each slot becomes the larger of its level and the other array's |
| Transports.TransportBuilder.Quests | src/main/java/shortestpath/transport/Transport.java:272-275 | adds the given quests to those already required |
| Transports.TransportBuilder.QuestsText | src/main/java/shortestpath/transport/Transport.java:277-280 | adds the quests the cell names to those already required |
| Transports.TransportBuilder.ItemRequirements | src/main/java/shortestpath/transport/Transport.java:282-285 | replaces the item requirements |
| Transports.TransportBuilder.ItemRequirementsText | src/main/java/shortestpath/transport/Transport.java:287-290 | replaces the item requirements by those the cell describes |
| Transports.TransportBuilder.Type | src/main/java/shortestpath/transport/Transport.java:292-295 | replaces the type |
| Transports.TransportBuilder.Duration | src/main/java/shortestpath/transport/Transport.java:297-300 | keeps the larger of the old and the given duration |
| Transports.TransportBuilder.DurationFromText | src/main/java/shortestpath/transport/Transport.java:302-311 | the duration becomes the parsed number, or stays when the cell is empty or not a number |
| Transports.TransportBuilder.DisplayInfo | src/main/java/shortestpath/transport/Transport.java:313-316 | replaces the display text |
| Transports.TransportBuilder.IsConsumable | src/main/java/shortestpath/transport/Transport.java:318-321 | once consumable, the builder stays consumable |
| Transports.TransportBuilder.IsConsumableFromText | src/main/java/shortestpath/transport/Transport.java:323-326 | the flag is overwritten by what the cell says, even when it was set before |
| Transports.TransportBuilder.MaxWildernessLevel | src/main/java/shortestpath/transport/Transport.java:328-331 | keeps the larger of the old and the given wilderness level |
| Transports.TransportBuilder.MaxWildernessLevelFromText | src/main/java/shortestpath/transport/Transport.java:333-342 | the level becomes the parsed number, or stays when the cell is empty or not a number |
| Transports.TransportBuilder.ObjectInfo | src/main/java/shortestpath/transport/Transport.java:344-347 | replaces the object text |
| Transports.TransportBuilder.VarRequirements | src/main/java/shortestpath/transport/Transport.java:349-352 | adds the given requirements to those already held |
| Transports.TransportBuilder.VarbitsText | src/main/java/shortestpath/transport/Transport.java:354-357 | adds the varbit requirements the cell describes |
| Transports.TransportBuilder.VarPlayersText | src/main/java/shortestpath/transport/Transport.java:359-362 | adds the varplayer requirements the cell describes |
| Transports.TransportBuilder.ApplyEnds | src/main/java/shortestpath/transport/Transport.java:135-137 | applies the origin and destination lines of the record constructor, and fails exactly when a point cell is not a number |
| Transports.TransportBuilder.ApplyColumn | src/main/java/shortestpath/transport/Transport.java:138-148 | one column line: the setter runs only when the record has a non-empty cell for that column |
| Transports.TransportBuilder.ApplyColumns | src/main/java/shortestpath/transport/Transport.java:138-148 | the column lines applied in the order the constructor lists them |
| Transports.TransportBuilder.Build | src/main/java/shortestpath/transport/Transport.java:365-390 | a fresh transport with the builder's fields, teleports raised to one tick and the type refined by the levels |
| Transports.BuiltTeleportTakesATick | src/main/java/shortestpath/transport/Transport.java:380-387 | after building, a teleport takes at least one tick and no less than before; any other duration is unchanged; a type stays present exactly when it was |
| Transports.FromRecord | src/main/java/shortestpath/transport/Transport.java:131-164 | a transport read from a row carries the fields the row's cells describe, and the constructor fails exactly when an end point is not a number |
| Transports.RecordLevels | src/main/java/shortestpath/transport/Transport.java:255-263 | each skill slot of a row's transport is the positive level its skills cell gives there, else 0 |
| Transports.RecordEnds | src/main/java/shortestpath/transport/Transport.java:135-137 | a missing end-point column leaves the point undefined; an empty cell gives the permutation marker |
| Transports.RecordQuests | src/main/java/shortestpath/transport/Transport.java:277-280 | a row's quests are exactly those its quests cell names |
| Transports.ColumnsAppend | src/main/java/shortestpath/transport/Transport.java:138-148 | applying the columns in two runs is applying them in one |
| Transports.OtherColumnsKeepLevels | src/main/java/shortestpath/transport/Transport.java:139-148 | columns other than skills leave the levels alone |
| Transports.OtherColumnsKeepEnds | src/main/java/shortestpath/transport/Transport.java:138-148 | no column after the end points changes them |
| Transports.OtherColumnsKeepQuests | src/main/java/shortestpath/transport/Transport.java:138-148 | columns other than quests leave the quests alone |
| Transports.MergeEnds | src/main/java/shortestpath/transport/Transport.java:98-103 | the merge's first setters: the origin side's origin and type, the destination side's destination, both sides' levels |
| Transports.MergeRequirements | src/main/java/shortestpath/transport/Transport.java:104-108 | the merge's quests, item requirements, duration and display text |
| Transports.MergeLimits | src/main/java/shortestpath/transport/Transport.java:109-113 | the merge's consumability, wilderness limit, object text and variable requirements |
| Transports.Merge | src/main/java/shortestpath/transport/Transport.java:97-129 | the merged transport holds the fields of the builder chain over both sides |
| Transports.MergeTakesEachSide | src/main/java/shortestpath/transport/Transport.java:97-129 | the merged transport takes origin, type and object text from the origin side; destination, items and display text from the destination side; the union of both sides' quests and variable requirements; consumable if either side is; the higher wilderness limit |
| Transports.MergedLevelsAreMax | src/main/java/shortestpath/transport/Transport.java:265-270 | merged skill levels are the element-wise maximum of both sides |
| Transports.MergedDuration | src/main/java/shortestpath/transport/Transport.java:297-383 | the merged duration is the longer of the two, raised to one tick for a teleport |
| TransportLoading.RowKinds | src/main/java/shortestpath/transport/TransportLoader.java:61-83 | the row kinds exclude each other: a permutation half is never inserted as it is, a skipped row is in no class, a teleport row (undefined origin, real destination) is always inserted, and a row from a point to itself is not |
| TransportLoading.PlacedMeans | src/main/java/shortestpath/transport/TransportLoader.java:81-90 | placing transports with `computeIfAbsent(origin).add` keeps every entry already there, puts each transport under its origin, adds nothing else and leaves no new empty set |
| TransportLoading.LoadedMeans | src/main/java/shortestpath/transport/TransportLoader.java:61-93 | loading a table only adds: old keys and transports stay, every inserted row and merged pair lies under its origin, and every new entry is one of those |
| TransportLoading.BuildRows | src/main/java/shortestpath/transport/TransportLoader.java:35-41 | one fresh transport per record, in order and pairwise distinct, each built from its record; fails exactly when some record's constructor throws |
| TransportLoading.ClassifyRows | src/main/java/shortestpath/transport/TransportLoader.java:61-83 | inserts exactly the rows of the inserted kind under their origins and collects exactly the origin-only and destination-only rows |
| TransportLoading.MergePair | src/main/java/shortestpath/transport/TransportLoader.java:87-90 | one merge of a pair that is far enough apart: a fresh merged transport, recorded under its pair and placed under the origin row's origin |
| TransportLoading.MergeOrigin | src/main/java/shortestpath/transport/TransportLoader.java:85-92 | one origin-only row merged with exactly the destination-only rows far enough away, one distinct fresh transport per pair |
| TransportLoading.AddPermutations | src/main/java/shortestpath/transport/TransportLoader.java:84-93 | every origin-only row merged with every destination-only row whose destination is farther from it than the threshold, one distinct fresh transport per pair, each placed under its origin |
| TransportLoading.AddTransportsFromContents | src/main/java/shortestpath/transport/TransportLoader.java:34-94 | the table's rows are built in order, inserted by kind, and joined by the merged permutation pairs; when a row cannot be built the call fails and inserts nothing |
| TransportLoading.PlaceRows | src/main/java/shortestpath/transport/TransportLoader.java:61-93 | the classification loop followed by the permutation loops yields the loaded map and one merge per far-apart pair |
| TransportLoading.OnlyInsertedRowsAppear | src/main/java/shortestpath/transport/TransportLoader.java:67-82 | a built row appears in the map exactly when it is of the inserted kind, and then only under its own origin |
| TransportLoading.PermutationsPlaced | src/main/java/shortestpath/transport/TransportLoader.java:84-93 | a pair is merged exactly when its ends lie farther apart than the threshold, and the merge leads from the origin row's origin to the destination row's destination |
| TransportLoading.Threshold | src/main/java/shortestpath/transport/TransportLoader.java:101 | a type's own radius threshold when it has one, else 0 |
| TransportLoading.LoadTable | src/main/java/shortestpath/transport/TransportLoader.java:25-32 | one resource table loaded with its type's threshold: fails exactly when that table fails; otherwise the table's rows are fresh transports built from its records, its merges are exactly the far-apart origin-only and destination-only pairs, and the new map is the old one with the inserted rows and the merged pairs placed under their origins |
| TransportLoading.LoadedKeeps | src/main/java/shortestpath/transport/TransportLoader.java:34-94 | loading keeps the map's entries and keeps every transport under its own origin with no empty set |
| TransportLoading.LoadType | src/main/java/shortestpath/transport/TransportLoader.java:100-102 | a type without a resource file leaves the map alone; one with a file loads its table with its threshold |
| TransportLoading.LoadTypes | src/main/java/shortestpath/transport/TransportLoader.java:99-103 | the type loop fails exactly when some type's table fails; otherwise each type with a resource file has the table its file builds and the map is those tables loaded in order |
| TransportLoading.LoadAllFromResources | src/main/java/shortestpath/transport/TransportLoader.java:96-106 | every type with a resource file, in declaration order, into one new map: fails exactly when some table fails; otherwise each such type's table is what its file builds, every inserted row and merged pair of every table is in the map under its origin, and the map holds nothing else |
| TransportLoading.LoadedTablesMeans | src/main/java/shortestpath/transport/TransportLoader.java:96-106 | loading tables in order into an empty map yields exactly the transports they contribute, each under its own origin, with no empty set |
| LegacyParsers.ParseWorldPoint | src/main/java/shortestpath/transport/WorldPointParser.java:9-18 | the legacy world-point parser gives the current parser's answer on every cell, so the current parser's round trip and permutation marker hold for it |
| LegacyParsers.ParseQuests | src/main/java/shortestpath/transport/QuestParser.java:11-27 | the legacy nested loops select exactly the quests the current quest parser selects, all of them valid quest indices |
| LegacyTransportTypes.IsTeleport | src/main/java/shortestpath/TransportType.java:31-43 | true exactly for item, minigame and spell teleports; false for `null` |
| LegacyTransportTypes.IsMembersOnly | src/main/java/shortestpath/TransportType.java:50-71 | true exactly for the twelve members-only types; false for `null` |
| LegacyTransportTypes.TeleportsAreNotMembersOnly | src/main/java/shortestpath/TransportType.java:31-71 | no type is both a teleport and members-only, and TRANSPORT is neither |
| LegacyVarPlayers.Code | src/main/java/shortestpath/TransportVarCheck.java:6-17 | every code is non-empty and starts with neither a digit, a sign nor ';'; only TIME_EXCEEDS has a code longer than one character |
| LegacyVarPlayers.CodesDistinct | src/main/java/shortestpath/TransportVarCheck.java:6-9 | the codes and their first characters are pairwise distinct, and the long code contains no one-character code |
| LegacyVarPlayers.Check | src/main/java/shortestpath/TransportVarPlayer.java:19-33 | each operator compares the player's value with the required one; TIME_EXCEEDS asks whether more than the required minutes have passed; an absent id is a precondition, since the unboxing would fault |
| LegacyVarPlayers.AgreesWithCurrentCheck | src/main/java/shortestpath/TransportVarPlayer.java:19-33 | where the legacy check is defined it agrees with the current varplayer requirement with the renamed operator; where it faults, the current check answers false |
| LegacyVarRequirementParsing.AsVarPlayer | src/main/java/shortestpath/transport/TransportVarPlayerParser.java:5-7 | `create` keeps the parsed id, value and operator |
| LegacyVarRequirementParsing.Parse | src/main/java/shortestpath/transport/VarRequirementParser.java:15-44 | the two nested loops return exactly the entries the specification function reads |
| LegacyVarRequirementParsing.FormatAvoids | src/main/java/shortestpath/transport/VarRequirementParser.java:22-28 | an entry written as `<id><code><value>` contains no other code's first character and no ';' |
| LegacyVarRequirementParsing.FormatReadsBack | src/main/java/shortestpath/transport/VarRequirementParser.java:27-34 | only the entry's own code splits it in two, the long code included, so the entry reads back as written |
| LegacyVarRequirementParsing.ReadFormattedEntries | src/main/java/shortestpath/transport/VarRequirementParser.java:22-39 | formatted entries read back one for one, in order |
| LegacyVarRequirementParsing.SplitFormatted | src/main/java/shortestpath/transport/VarRequirementParser.java:17-22 | formatted entries joined by ';' give a non-empty cell that splits back into the same entries |
| LegacyVarRequirementParsing.ParseFormatted | src/main/java/shortestpath/transport/VarRequirementParser.java:15-44 | round trip: entries written in the documented format and joined by ';' parse back to the same entries |
| LegacyVarRequirementParsing.NumberErrorKeepsEarlier | src/main/java/shortestpath/transport/VarRequirementParser.java:21-42 | an entry that is not a number abandons the later entries but keeps those parsed before it |
| LegacyVarRequirementParsing.AtMostOnePerEntry | src/main/java/shortestpath/transport/VarRequirementParser.java:22-35 | each entry adds at most one requirement |
| TransportIds.Of | src/main/java/shortestpath/pathfinder/TransportId.java:16-20 | the id copies the transport's origin, destination and type |
| TransportIds.Equals | src/main/java/shortestpath/pathfinder/TransportId.java:23-30 | `null` and objects of another class are never equal to an id |
| TransportIds.EqualsIsValueEquality | src/main/java/shortestpath/pathfinder/TransportId.java:23-30 | `equals` holds exactly when the three fields are equal: reflexive and symmetric |
| TransportIds.Hash | src/main/java/shortestpath/pathfinder/TransportId.java:33-35 | the hash is a Java int |
| TransportIds.HashConsistentWithEquals | src/main/java/shortestpath/pathfinder/TransportId.java:23-35 | equal ids have equal hash codes, whatever the enum hashes are |
| Nodes.StepCosts | src/main/java/shortestpath/pathfinder/Node.java:24-58 | a start node costs nothing; a walking step costs its predecessor's cost plus the distance walked, never less than the predecessor's cost when no int overflow occurs |
| Nodes.TransportStepCosts | src/main/java/shortestpath/pathfinder/TransportNode.java:13-20 | a transport node costs its predecessor's cost (0 at the start) plus travel time plus additional cost |
| Nodes.StepsInherit | src/main/java/shortestpath/pathfinder/Node.java:13-26 | both constructors link the node to its predecessor at the given position and inherit the predecessor's bank flag; only the transport node is a `TransportNode`, with `delayedVisit` as given |
| Nodes.CompareTo | src/main/java/shortestpath/pathfinder/TransportNode.java:22-25 | the comparison result is -1, 0 or 1 |
| Nodes.CompareToOrder | src/main/java/shortestpath/pathfinder/TransportNode.java:22-25 | the order is the integer order of the costs: consistent with equal costs, antisymmetric and transitive |
| Nodes.TrailLinks | src/main/java/shortestpath/pathfinder/Node.java:7-8 | the chain of predecessors starts at a node without predecessor, ends at the node itself, and links each node to the next |
| Nodes.GetPath | src/main/java/shortestpath/pathfinder/Node.java:28-44 | a fresh array holding the positions of the predecessor chain, from the start to this node |
| Nodes.PathOrder | src/main/java/shortestpath/pathfinder/Node.java:28-44 | the path has one position per node back to the start, the start's position first and this node's last, each the predecessor of the next |
| Pathfinders.Cheapest | src/main/java/shortestpath/pathfinder/Pathfinder.java:118 | the head the transport queue shows is a node of least cost |
| Pathfinders.NextIsCheapest | src/main/java/shortestpath/pathfinder/Pathfinder.java:117-131 | the node taken next is a cheapest head: a transport node only when it is strictly cheaper than the walking head, so a tie goes to the walking queue |
| Pathfinders.WildernessLevelDrops | src/main/java/shortestpath/pathfinder/Pathfinder.java:133-157 | the level the three checks settle on is the lowest one whose region the tile lies outside; it never rises and stays among 31, 30, 20 and 0 |
| Pathfinders.BetterIsLexLess | src/main/java/shortestpath/pathfinder/Pathfinder.java:168 | the test for a new best score is the lexicographic order on (heuristic, distance) |
| Pathfinders.ScoreTargets | src/main/java/shortestpath/pathfinder/Pathfinder.java:165-175 | whatever order the targets are visited in, the best score becomes the least of the old best and the node's scores, and the node is recorded exactly when one of its scores beats the old best |
| Pathfinders.KeptMeans | src/main/java/shortestpath/pathfinder/Pathfinder.java:86-89 | a neighbour is queued exactly when `avoidWilderness` does not reject it |
| Pathfinders.WalksAndRides | src/main/java/shortestpath/pathfinder/Pathfinder.java:91-102 | every kept neighbour goes to exactly one of the two queues |
| Pathfinders.WalksAndRidesKinds | src/main/java/shortestpath/pathfinder/Pathfinder.java:91-102 | the FIFO receives only walking nodes and the transport queue only transport nodes |
| Pathfinders.Enqueue | src/main/java/shortestpath/pathfinder/Pathfinder.java:91-102 | one kept neighbour: a transport node is queued unmarked, a walking node is marked visited and queued |
| Pathfinders.Pathfinder.constructor | src/main/java/shortestpath/pathfinder/Pathfinder.java:45-55 | a new search has empty queues, no visited tile, no best node and wilderness level 31 |
| Pathfinders.Pathfinder.Cancel | src/main/java/shortestpath/pathfinder/Pathfinder.java:57-59 | sets the cancel flag |
| Pathfinders.Pathfinder.GetPath | src/main/java/shortestpath/pathfinder/Pathfinder.java:70-82 | the empty path before any best node exists; otherwise the best node's path, rebuilt only when it was marked stale |
| Pathfinders.Pathfinder.Dequeue | src/main/java/shortestpath/pathfinder/Pathfinder.java:117-131 | takes the cheapest transport node when it is strictly cheaper than the walking head, dropping it when its tile was visited meanwhile and marking it otherwise; else takes the walking head |
| Pathfinders.Pathfinder.UpdateWildernessLevel | src/main/java/shortestpath/pathfinder/Pathfinder.java:133-157 | lowers the level as the three checks say, and refreshes the teleports for the new level at this tile exactly when it dropped |
| Pathfinders.Pathfinder.AddNeighbors | src/main/java/shortestpath/pathfinder/Pathfinder.java:84-104 | the FIFO gains the kept walking neighbours in order and their tiles are marked visited; the transport queue gains the kept transport neighbours in order, unmarked |
| Pathfinders.Pathfinder.TakeNext | src/main/java/shortestpath/pathfinder/Pathfinder.java:117-175 | takes a node and lowers the wilderness level; stops at a target with that node as best; otherwise records the node as best exactly when it beats the old best score |
| Pathfinders.Pathfinder.Turn | src/main/java/shortestpath/pathfinder/Pathfinder.java:117-181 | a turn that does not stop lowers the best score, the time left or the transport queue, so the search loop ends |
| Pathfinders.Pathfinder.Run | src/main/java/shortestpath/pathfinder/Pathfinder.java:107-193 | the search ends; it is done exactly when not cancelled, leaves the queues and visited tiles empty and never raises the wilderness level |
| TransportRules.CheckTeleportationItemRules | src/main/java/shortestpath/pathfinder/PathfinderConfig.java:568-590 | a transport of a teleport-item type passes iff the setting is not NONE and, under the non-consumable settings, the item is not used up; any other type always passes |
| TransportRules.JewelleryBoxTiersNest | src/main/java/shortestpath/pathfinder/PathfinderConfig.java:596-640 | a jewellery-box teleport usable at one tier stays usable at every better tier, and tier NONE allows none |
| TransportRules.OrnateBoxHidesMountedGlory | src/main/java/shortestpath/pathfinder/PathfinderConfig.java:596-616 | with the ornate box the mounted glory is never used; without it the glory follows the mounted-items switch |
| TransportRules.HasRequiredLevels | src/main/java/shortestpath/pathfinder/PathfinderConfig.java:645-655 | the levels pass iff every slot's boosted level is at least the required one |
| TransportRules.RequiredLevelsMet | src/main/java/shortestpath/pathfinder/PathfinderConfig.java:645-655 | the loop stopping at the first short slot answers exactly whether every level is met |
| TransportRules.QuestsCompleted | src/main/java/shortestpath/pathfinder/PathfinderConfig.java:455-462 | the loop over the quests answers exactly whether every listed quest is finished, an unknown quest counting as not started |
| TransportRules.RequirementsMet | src/main/java/shortestpath/pathfinder/PathfinderConfig.java:464-480 | the loop over the varbit or varplayer requirements answers exactly whether every one of them holds against the cached values |
| TransportRules.VarCheckIsCheck | src/main/java/shortestpath/pathfinder/PathfinderConfig.java:464-480 | checking a requirement against the cached lookup is the requirement's own check against the cache |
| TransportRules.UseTransport | src/main/java/shortestpath/pathfinder/PathfinderConfig.java:482-534 | testing the conditions in the source's order, stopping at the first that fails, gives exactly the eligibility predicate |
| TransportRules.EligibleMeetsRequirements | src/main/java/shortestpath/pathfinder/PathfinderConfig.java:482-534 | an eligible transport has an enabled type, every level, every quest finished and every variable requirement met, and a house transport needs the house switched on |
| TransportRules.DisabledTypeIsNeverEligible | src/main/java/shortestpath/pathfinder/PathfinderConfig.java:495-498 | a transport of a disabled type is never eligible |
| TransportRules.EligibleReadsOwnEntries | src/main/java/shortestpath/pathfinder/PathfinderConfig.java:517-534 | eligibility depends only on the cached values of the transport's own quests and variables |
| TransportRules.FairyRingNeedsStaff | src/main/java/shortestpath/pathfinder/PathfinderConfig.java:685-693 | without the Lumbridge elite diary, a fairy ring passes the item check only when a Dramen or Lunar staff is held in a checked container |
| TransportRules.UnvisitedBankIgnored | src/main/java/shortestpath/pathfinder/PathfinderConfig.java:738-753 | a bank not yet seen or not visited on the path contributes nothing to the held items |
| TransportRules.AvoidOnlyEntering | src/main/java/shortestpath/pathfinder/PathfinderConfig.java:337-342 | a step is avoided only when it enters the wilderness from outside, and never when the target is in the wilderness or avoidance is off |
| TransportRules.RemapPohMovesHouseTransports | src/main/java/shortestpath/pathfinder/PathfinderConfig.java:421-449 | after the remap no key but the landing tile lies in the house, every transport keyed in the house sits at the landing tile, keys outside keep their transports and nothing new appears |
| TransportRules.HouseTransportsLand | src/main/java/shortestpath/pathfinder/PathfinderConfig.java:440-447 | every non-empty set keyed inside the house ends up inside the landing tile's set |
| TransportRules.AddAt | src/main/java/shortestpath/pathfinder/PathfinderConfig.java:188-193 | adding a set at a key unions it into that key's set, creates the key only for a non-empty set and leaves every other key alone |
| TransportRules.AddAll | src/main/java/shortestpath/pathfinder/PathfinderConfig.java:371-387 | adding per-key sets gives each key the union of its old and added transports, and keys only appear for non-empty additions |
| TransportRules.WildernessTeleports | src/main/java/shortestpath/pathfinder/PathfinderConfig.java:180-187 | a usable teleport is kept iff the wilderness level does not exceed its maximum |
| TransportRules.OutsideWilderness | src/main/java/shortestpath/pathfinder/PathfinderConfig.java:239-246 | a destination is kept iff it lies outside the wilderness |
| TransportRules.FilteredDestinations | src/main/java/shortestpath/pathfinder/PathfinderConfig.java:235-255 | every destination type kept holds exactly its destinations outside the wilderness |
| TransportRules.FilteredDestinationsKeepOutside | src/main/java/shortestpath/pathfinder/PathfinderConfig.java:235-255 | a destination type survives iff one of its destinations lies outside the wilderness |
| PathfinderConfigs.Usable | src/main/java/shortestpath/pathfinder/PathfinderConfig.java:288-310 | the usable transports of a set are among that set |
| PathfinderConfigs.UsableMeans | src/main/java/shortestpath/pathfinder/PathfinderConfig.java:304-310 | a transport is usable iff it is in the set, passes `useTransport` and has its items in the checked containers |
| PathfinderConfigs.UsableByOrigin | src/main/java/shortestpath/pathfinder/PathfinderConfig.java:285-311 | every origin of the full map gets a usable set, and that set is part of the origin's transports |
| PathfinderConfigs.NonEmptyEntries | src/main/java/shortestpath/pathfinder/PathfinderConfig.java:313-316 | an origin is stored iff it has been processed, is not the teleport key and has a usable transport, and then with exactly that set |
| PathfinderConfigs.UsableMap | src/main/java/shortestpath/pathfinder/PathfinderConfig.java:282-317 | every stored origin is a real tile of the full map with a non-empty set of its own usable transports |
| PathfinderConfigs.FairyRingsAt | src/main/java/shortestpath/pathfinder/PathfinderConfig.java:377-380 | a transport of a tile is added on a bank visit iff it is a fairy ring that passes `useTransport` |
| PathfinderConfigs.FairyRingAdds | src/main/java/shortestpath/pathfinder/PathfinderConfig.java:371-388 | the bank visit considers every tile but the teleport key, and only adds that tile's own fairy rings that pass `useTransport` |
| PathfinderConfigs.StaffOnPlayerIsAvailable | src/main/java/shortestpath/pathfinder/PathfinderConfig.java:272 | the staff check of `refreshTransports` is the item check of `DRAMEN_STAFF` on the inventory and equipment alone |
| PathfinderConfigs.GatedTypes | src/main/java/shortestpath/pathfinder/PathfinderConfig.java:273-280 | after the four `disableUnless` calls a type is enabled iff it was enabled and its quest or staff gate is open |
| PathfinderConfigs.BankVisitStates | src/main/java/shortestpath/pathfinder/PathfinderConfig.java:367-369 | a bank visit that opens the fairy rings gives the fairy-ring type its configured state and leaves every other flag alone |
| PathfinderConfigs.RemapPohIdempotent | src/main/java/shortestpath/pathfinder/PathfinderConfig.java:421-449 | remapping a map that is already remapped changes nothing |
| PathfinderConfigs.RemapPohIsRemapped | src/main/java/shortestpath/pathfinder/PathfinderConfig.java:421-449 | after the remap no key but the landing tile lies in the house and no set is empty |
| PathfinderConfigs.RemapAfterAddingGrows | src/main/java/shortestpath/pathfinder/PathfinderConfig.java:371-391 | adding transports to a remapped map and remapping again keeps every key and every transport it had |
| PathfinderConfigs.DisabledFairyRingsStayAway | src/main/java/shortestpath/pathfinder/PathfinderConfig.java:361-394 | as written, a bank visit after `refreshTransports` disabled the fairy-ring type adds no fairy ring |
| PathfinderConfigs.EnabledFairyRingsAreAdded | src/main/java/shortestpath/pathfinder/PathfinderConfig.java:361-394 | with the type enabled, every fairy ring that passes `useTransport` is added at its own tile, or at the landing tile when inside the house |
| PathfinderConfigs.BankVisitGrows | src/main/java/shortestpath/pathfinder/PathfinderConfig.java:344-394 | a bank visit only adds transports: every key and transport of the remapped map survives |
| PathfinderConfigs.StaffInBankIsAvailable | src/main/java/shortestpath/pathfinder/PathfinderConfig.java:399-415 | a staff found by `hasStaffInBank` meets the staff requirement from the bank once the bank counts |
| PathfinderConfigs.CoveringCacheAgrees | src/main/java/shortestpath/pathfinder/PathfinderConfig.java:289-304 | once the quests and variables of a transport are cached from the client, `useTransport` on the cache decides as the client would |
| PathfinderConfigs.ItemsOkReadsDiaryOnly | src/main/java/shortestpath/pathfinder/PathfinderConfig.java:664-697 | the item check of a transport reads only the cached diary varbit, so the cache and the client agree on it |
| PathfinderConfigs.FilterDestinations | src/main/java/shortestpath/pathfinder/PathfinderConfig.java:235-255 | the nested loop builds exactly the destination types with their destinations outside the wilderness |
| PathfinderConfigs.WildernessLocations | src/main/java/shortestpath/pathfinder/PathfinderConfig.java:206-210 | a location is set aside iff it lies in the wilderness |
| PathfinderConfigs.WildernessSplits | src/main/java/shortestpath/pathfinder/PathfinderConfig.java:204-212 | the kept and the set-aside locations split the locations exactly |
| PathfinderConfigs.PathfinderConfig.constructor | src/main/java/shortestpath/pathfinder/PathfinderConfig.java:113-126 | a new configuration has refreshed type flags, no usable transports yet, the filtered destinations precomputed and all destinations in use |
| PathfinderConfigs.PathfinderConfig.HasRequiredItemsIn | src/main/java/shortestpath/pathfinder/PathfinderConfig.java:706-813 | the answer is the item check of the requirement groups against the held items of the checked containers |
| PathfinderConfigs.PathfinderConfig.HasRequiredItemsFor | src/main/java/shortestpath/pathfinder/PathfinderConfig.java:664-697 | the answer is the transport item check: the teleport setting, the fairy-ring staff, then the transport's own items |
| PathfinderConfigs.PathfinderConfig.CacheRequirements | src/main/java/shortestpath/pathfinder/PathfinderConfig.java:289-302 | the caches gain exactly the transport's quests and variables, read from the client, and keep agreeing with it |
| PathfinderConfigs.PathfinderConfig.ConsiderTransport | src/main/java/shortestpath/pathfinder/PathfinderConfig.java:288-310 | after caching its requirements a transport is taken iff it passes `useTransport` and the item check as the client's live state decides them |
| PathfinderConfigs.PathfinderConfig.ProcessOrigin | src/main/java/shortestpath/pathfinder/PathfinderConfig.java:285-311 | the inner loop yields exactly the usable transports of the origin and caches everything they ask about |
| PathfinderConfigs.PathfinderConfig.StoreOrigin | src/main/java/shortestpath/pathfinder/PathfinderConfig.java:304-316 | a teleport origin's set becomes the usable teleports; any other non-empty set is stored at its origin |
| PathfinderConfigs.PathfinderConfig.CollectOrigin | src/main/java/shortestpath/pathfinder/PathfinderConfig.java:285-317 | one pass of the outer loop extends the stored map and the teleports by exactly one origin |
| PathfinderConfigs.PathfinderConfig.CollectUsable | src/main/java/shortestpath/pathfinder/PathfinderConfig.java:282-317 | the map becomes the non-empty usable sets of every real origin, and the usable teleports those under the teleport key |
| PathfinderConfigs.PathfinderConfig.HasStaffInBank | src/main/java/shortestpath/pathfinder/PathfinderConfig.java:399-415 | the answer is whether some Dramen or Lunar staff with a positive quantity is in the bank, and false with no bank |
| PathfinderConfigs.PathfinderConfig.HasStaffOnPlayer | src/main/java/shortestpath/pathfinder/PathfinderConfig.java:272 | the answer is whether a staff is held in the inventory or the equipment |
| PathfinderConfigs.PathfinderConfig.CacheFairyRingVarbits | src/main/java/shortestpath/pathfinder/PathfinderConfig.java:264-265 | the Fairy Tale II varbit is cached from the client and the caches keep agreeing with it |
| PathfinderConfigs.PathfinderConfig.GateFairyRings | src/main/java/shortestpath/pathfinder/PathfinderConfig.java:270-274 | the fairy-ring type is disabled unless the quest is far enough along and the diary is done or a staff is on the player |
| PathfinderConfigs.PathfinderConfig.GateTypes | src/main/java/shortestpath/pathfinder/PathfinderConfig.java:270-280 | the type flags become the four quest and staff gates applied in order; costs and the teleport setting are untouched |
| PathfinderConfigs.PathfinderConfig.FindHouseTransports | src/main/java/shortestpath/pathfinder/PathfinderConfig.java:423-434 | collects exactly the origins inside the house and every transport leaving from one of them |
| PathfinderConfigs.PathfinderConfig.RemapPohTransports | src/main/java/shortestpath/pathfinder/PathfinderConfig.java:421-449 | the map becomes its house remap |
| PathfinderConfigs.PathfinderConfig.RefreshTeleports | src/main/java/shortestpath/pathfinder/PathfinderConfig.java:179-195 | the teleports allowed at the wilderness level are unioned into the location's set, and nothing changes if there are none |
| PathfinderConfigs.PathfinderConfig.FilterLocations | src/main/java/shortestpath/pathfinder/PathfinderConfig.java:204-222 | when avoiding the wilderness its locations move to the filtered targets, all coming back if nothing else is left; otherwise the targets come back when allowed; no location is ever lost and a non-empty set stays non-empty |
| PathfinderConfigs.PathfinderConfig.SetAsideWilderness | src/main/java/shortestpath/pathfinder/PathfinderConfig.java:205-211 | the kept locations are those outside the wilderness and the filtered targets gain exactly those inside |
| PathfinderConfigs.PathfinderConfig.AdditionalCostFollowsSettings | src/main/java/shortestpath/pathfinder/PathfinderConfig.java:227-233 | a consumable teleport item costs its own setting, any other typed transport its type's configured cost, an untyped one nothing |
| PathfinderConfigs.PathfinderConfig.RefreshTransports | src/main/java/shortestpath/pathfinder/PathfinderConfig.java:257-321 | the type flags are gated, the map becomes the house remap of the usable transports per origin, the teleports the usable ones under the teleport key, and every transport's requirements are cached |
| PathfinderConfigs.PathfinderConfig.RefreshUsableTeleports | src/main/java/shortestpath/pathfinder/PathfinderConfig.java:323-335 | the usable teleports only grow, by those whose items the bank provides |
| PathfinderConfigs.PathfinderConfig.AddFairyRingsAt | src/main/java/shortestpath/pathfinder/PathfinderConfig.java:377-387 | the tile's eligible fairy rings are unioned into its set |
| PathfinderConfigs.PathfinderConfig.AddFairyRings | src/main/java/shortestpath/pathfinder/PathfinderConfig.java:371-388 | every tile but the teleport key gains its eligible fairy rings |
| PathfinderConfigs.PathfinderConfig.RefreshTransportsForBankVisitAsWritten | src/main/java/shortestpath/pathfinder/PathfinderConfig.java:361-394 | as written the type flags do not change, and when the quest and the diary or a banked staff allow it the eligible fairy rings are added and the house remapped |
| PathfinderConfigs.PathfinderConfig.RefreshTransportsForBankVisit | src/main/java/shortestpath/pathfinder/PathfinderConfig.java:361-394 | as intended the fairy-ring type first gets back its configured state, then the eligible fairy rings are added and the house remapped |
| PathfinderConfigs.PathfinderConfig.SetBankVisited | src/main/java/shortestpath/pathfinder/PathfinderConfig.java:344-353 | the type flags never change; without a visit nothing but the flag changes; with one the as-written bank-visit refresh runs (adding only fairy rings that pass `useTransport` with the flags as they are), then the bank-enabled teleports and the teleports at the location are added |
| PathfinderConfigs.PathfinderConfig.SetBankVisitedIntended | src/main/java/shortestpath/pathfinder/PathfinderConfig.java:344-353 | with the corrected bank-visit refresh, a visit that opens the fairy rings gives the type its configured state before the fairy rings, the bank-enabled teleports and the teleports at the location are added |
| PathfinderConfigs.PathfinderConfig.Refresh | src/main/java/shortestpath/pathfinder/PathfinderConfig.java:140-175 | the settings are copied and the bank counts as visited unless bank trips are planned; when logged in the levels are read and each type is enabled iff configured and gated open, with the transports rebuilt; the destinations follow the wilderness setting |
| ItemChecks.PutItemsLastStackWins | src/main/java/shortestpath/pathfinder/PathfinderConfig.java:716-753 | quantities overwrite rather than add: an id is held iff it was held or some counted stack has it, the last such stack giving its quantity, and an id no stack names keeps its old quantity |
| ItemChecks.UncheckedContainersDoNotCount | src/main/java/shortestpath/pathfinder/PathfinderConfig.java:714-767 | with no container looked at, nothing is held, not even pouch runes |
| ItemChecks.FirstMatch | src/main/java/shortestpath/pathfinder/PathfinderConfig.java:774-783 | the alternative chosen is the first one held in sufficient quantity, and none is chosen only when none is held |
| ItemChecks.Resolve | src/main/java/shortestpath/pathfinder/PathfinderConfig.java:769-812 | a passing check finds one source per requirement group |
| ItemChecks.ResolvedSourcesServe | src/main/java/shortestpath/pathfinder/PathfinderConfig.java:769-811 | when the check passes every group is met by a source that serves it, a substitute only where no primary item holds, the staff at most once and the offhand at most once, and neither if already in use |
| ItemChecks.CurrencyCeilingFails | src/main/java/shortestpath/pathfinder/PathfinderConfig.java:774-780 | if the first held primary item of some group is a currency asked for above the threshold, the whole check fails whatever the other groups |
| ItemChecks.FailureIgnoresLaterGroups | src/main/java/shortestpath/pathfinder/PathfinderConfig.java:808-810 | the loop stops at the first group it cannot meet, whatever groups follow |
| ItemChecks.PrimaryItemsSuffice | src/main/java/shortestpath/pathfinder/PathfinderConfig.java:771-784 | groups each with a held primary item under the currency ceiling pass without using any substitute |
| ItemChecks.FindFirst | src/main/java/shortestpath/pathfinder/PathfinderConfig.java:773-807 | the scan of one array of alternatives, stopping at the first that holds, finds the first matching id, and none for a null array |
| ItemChecks.CheckGroups | src/main/java/shortestpath/pathfinder/PathfinderConfig.java:769-812 | the group loop with its staff and offhand flags passes iff every group finds a source |
| ItemChecks.PutAll | src/main/java/shortestpath/pathfinder/PathfinderConfig.java:719-723 | the loop over one container records the counted stacks in order |
| ItemChecks.PutPouchRunes | src/main/java/shortestpath/pathfinder/PathfinderConfig.java:758-765 | the loop over the pouch slots records each rune with a positive amount, in slot order |
| ItemChecks.AnyRunePouch | src/main/java/shortestpath/pathfinder/PathfinderConfig.java:756 | the answer is whether some rune pouch is among the items recorded so far |
| ItemChecks.GatherHoldings | src/main/java/shortestpath/pathfinder/PathfinderConfig.java:714-767 | the quantities come from the inventory, then the equipment, then the bank, then the pouch's runes when a pouch is held |
| ItemChecks.HasRequiredItems | src/main/java/shortestpath/pathfinder/PathfinderConfig.java:706-813 | null requirements always pass; otherwise the answer is the group check against the gathered quantities |
| SplitFlagMaps.Low16 | src/main/java/shortestpath/pathfinder/SplitFlagMap.java:60 | the masked low half of an int lies between 0 and 0xFFFF |
| SplitFlagMaps.High16 | src/main/java/shortestpath/pathfinder/SplitFlagMap.java:64 | the shifted and masked high half of an int lies between 0 and 0xFFFF |
| SplitFlagMaps.UnpackPacked | src/main/java/shortestpath/pathfinder/SplitFlagMap.java:59-69 | a packed position is an int, and unpacking it gives back the low 16 bits of each coordinate |
| SplitFlagMaps.PackRoundTrip | src/main/java/shortestpath/pathfinder/SplitFlagMap.java:59-69 | region coordinates from 0 to 0xFFFF survive packing and unpacking unchanged |
| SplitFlagMaps.PackUnpacked | src/main/java/shortestpath/pathfinder/SplitFlagMap.java:59-69 | every int is the packing of its own unpacked halves |
| SplitFlagMaps.PackInjective | src/main/java/shortestpath/pathfinder/SplitFlagMap.java:67-69 | distinct region coordinates from 0 to 0xFFFF pack to distinct ints |
| SplitFlagMaps.JavaDiv | src/main/java/shortestpath/pathfinder/SplitFlagMap.java:47 | division rounds toward zero: the plain quotient for a non-negative dividend, its negation mirrored for a negative one |
| SplitFlagMaps.NoExtentSlots | src/main/java/shortestpath/pathfinder/SplitFlagMap.java:75-78 | with no region file read, the initial extremes wrap the width and height to 2 each, so the array has 4 slots |
| SplitFlagMaps.IndexInside | src/main/java/shortestpath/pathfinder/SplitFlagMap.java:29-33 | in an extent that fits, the array length is the product of the inclusive width and height, and a region inside the extent has the row-major index, which lies inside the array |
| SplitFlagMaps.IndexInjective | src/main/java/shortestpath/pathfinder/SplitFlagMap.java:55-57 | distinct regions inside an extent that fits have distinct indices |
| SplitFlagMaps.IndexWrapsToNextRow | src/main/java/shortestpath/pathfinder/SplitFlagMap.java:46-57 | only the index is bounds-checked: the region just past a row's right edge reads the slot of the next row's first region |
| SplitFlagMaps.SplitFlagMap.constructor | src/main/java/shortestpath/pathfinder/SplitFlagMap.java:29-44 | the array is sized from the extent and holds, at each region's slot, that region's flag map and plane count, and nothing elsewhere |
| SplitFlagMaps.SplitFlagMap.Get | src/main/java/shortestpath/pathfinder/SplitFlagMap.java:46-53 | a tile is flagged only when its region slot lies inside the array and holds a region |
| SplitFlagMaps.SplitFlagMap.GetStoredRegion | src/main/java/shortestpath/pathfinder/SplitFlagMap.java:46-53 | a tile of a stored region is answered by that region's flag map |
| SplitFlagMaps.SplitFlagMap.GetUnstored | src/main/java/shortestpath/pathfinder/SplitFlagMap.java:46-50 | a tile whose slot holds no stored region is never flagged |
| SplitFlagMaps.Collected | src/main/java/shortestpath/pathfinder/SplitFlagMap.java:82-93 | every key of the collected table is an int |
| SplitFlagMaps.CollectedKeys | src/main/java/shortestpath/pathfinder/SplitFlagMap.java:82-93 | the table has a key for each file's packed position and no other |
| SplitFlagMaps.CollectedValues | src/main/java/shortestpath/pathfinder/SplitFlagMap.java:92 | under each key the table holds the bytes of the last file with that position |
| SplitFlagMaps.TightFits | src/main/java/shortestpath/pathfinder/SplitFlagMap.java:87-95 | the extent of the files' lowest and highest coordinates fits when every span of two files does |
| SplitFlagMaps.CollectedInside | src/main/java/shortestpath/pathfinder/SplitFlagMap.java:87-92 | every collected key unpacks to the coordinates of some file, so lies inside an extent around all files |
| SplitFlagMaps.CollectedSlotInside | src/main/java/shortestpath/pathfinder/SplitFlagMap.java:39-41 | a collected key's slot lies inside the array of an extent that fits around all files |
| SplitFlagMaps.CollectedSlotsDistinct | src/main/java/shortestpath/pathfinder/SplitFlagMap.java:39-41 | distinct collected keys have distinct slots, so no region overwrites another |
| SplitFlagMaps.CollectedPlaceable | src/main/java/shortestpath/pathfinder/SplitFlagMap.java:71-101 | the extent and the table that the file loop builds satisfy what the constructor needs |
| SplitFlagMaps.FromResources | src/main/java/shortestpath/pathfinder/SplitFlagMap.java:71-101 | the extent holds the lowest and highest coordinates read (the 4-slot empty map when none), and the map stores the collected table |
| SplitFlagMaps.ExtendTight | src/main/java/shortestpath/pathfinder/SplitFlagMap.java:87-90 | taking one more file into the running minima and maxima keeps them the extremes of the files read |
| BankPickups.EmptyStacks | src/main/java/shortestpath/transport/BankPickupRequirements.java:148-183 | a carried stack counts whatever its quantity, a banked stack only with a positive quantity |
| BankPickups.ContainerHolds | src/main/java/shortestpath/transport/BankPickupRequirements.java:150-169 | the loop over a container's stacks finds one of the ids iff some stack has it, and a missing container holds nothing |
| BankPickups.CarriedHolds | src/main/java/shortestpath/transport/BankPickupRequirements.java:148-172 | an item is carried iff the inventory or the equipment has a stack of one of its ids |
| BankPickups.BankHolds | src/main/java/shortestpath/transport/BankPickupRequirements.java:174-183 | an item is banked iff some bank stack of one of its ids has a positive quantity |
| BankPickups.CheckDramenStaffInBank | src/main/java/shortestpath/transport/BankPickupRequirements.java:97-111 | the staff label is returned iff no staff is carried and one is banked |
| BankPickups.DramenStaffPickup | src/main/java/shortestpath/transport/BankPickupRequirements.java:97-111 | the method with its two searches gives exactly the staff decision |
| BankPickups.TeleportLabel | src/main/java/shortestpath/transport/BankPickupRequirements.java:134-141 | with a ':' after the first character the label is the trimmed text before it, which has no ':' and is no longer than that prefix; otherwise the whole text |
| BankPickups.CheckTeleportItemInBank | src/main/java/shortestpath/transport/BankPickupRequirements.java:116-146 | the teleport's label is returned iff it has a first item group with some ids, none of them carried, one banked, and display text |
| BankPickups.TeleportPickup | src/main/java/shortestpath/transport/BankPickupRequirements.java:116-146 | the method with its two searches gives exactly the teleport decision |
| BankPickups.PickupsShape | src/main/java/shortestpath/transport/BankPickupRequirements.java:75-91 | the list has at most two entries, the staff entry first and exactly when a fairy ring is used and the staff is banked but not carried, the teleport's label last when its item is to be picked up |
| BankPickups.ScanStep | src/main/java/shortestpath/transport/BankPickupRequirements.java:57-71 | one step of the scan notes whether a fairy ring is used and keeps the first teleportation-item transport met |
| BankPickups.ScanStepMeans | src/main/java/shortestpath/transport/BankPickupRequirements.java:59-71 | what one step finds extends the scan of the steps before it |
| BankPickups.GetRequiredBankItems | src/main/java/shortestpath/transport/BankPickupRequirements.java:31-92 | nothing without a bank, a path, an index inside it and a bank tile there; otherwise the pickups for the fairy rings used on the rest of the path and its first teleportation-item transport |
| TransportRecords.Of | src/main/java/shortestpath/transport/parser/TransportRecord.java:14-16 | the record holds exactly the fields it was given, as a value the caller cannot change afterwards |
| SkillRequirementParsing.ParseSpec | src/main/java/shortestpath/transport/parser/SkillRequirementParser.java:19-24 | the parsed levels always have one slot per skill plus the total, combat and quest-point slots |
| VarRequirementParsing.EntryCarriesVarType | src/main/java/shortestpath/transport/parser/VarRequirementParser.java:68-76 | every requirement an entry yields carries the parser's variable kind |

## Left out

- **Resource I/O.** Reading the transport tables, the collision-map directory and the destination files from the classpath is left out. The model takes their contents as values: the text of each table, and each region file's coordinates and bytes. `Destination.java` is not part of this model.
- **Flag-map decoding.** `FlagMap` decoding of a region's bytes and its plane count are a `FlagDecoder` parameter; `FlagMap.java` is not part of this model.
- **`SplitFlagMap` static extent.** The static `regionExtents` is passed to the constructor as a value.
- SplitFlagMaps.SplitFlagMap.constructor: its precondition requires `Placeable`: every region's slot lies inside the array and no two regions share a slot. `CollectedPlaceable` proves this for what `fromResources` builds. A hand-made region table that breaks it would throw or overwrite in Java, and that is not modelled.
- **Wall-clock cutoff.** The `System.currentTimeMillis` cutoff of `Pathfinder.run` becomes a count of dequeued nodes since the last improvement. `PathfinderStats` and its timings are left out.
- **`cancel`.** The volatile `done`/`cancelled` flags and the other thread's `cancel` become an oracle consulted before each check of the loop condition.
- **Queue tie order.** `PriorityQueue` tie order is not modelled. The search may take any transport node of least cost.
- **`HashSet` and `HashMap` iteration order.** Loops over them take their elements in an arbitrary order. Where the source's result depends on that order, the contract allows every order: the first teleport item kept by `getRequiredBankItems`.
- Pathfinders.Pathfinder.Run: its contract states the clean-up, `done == !cancelled` and the falling wilderness level, but not which node ends up best. The per-iteration facts are stated by `TakeNext`, `Turn` and `ScoreTargets`.
- **Client thread and collision map.** The client-thread guard of `refreshTransports` and the `ThreadLocal` collision map are left out: the model is sequential.
- **`transportsPacked`.** The `PrimitiveIntHashMap` mirror of the usable map is left out. Only `transports` is modelled.
- **Quest-state lookup errors.** The `NullPointerException` that `refreshTransports` catches around `getQuestState` is left out. Quest states are a total snapshot function.
- **`getCombatLevel`.** It computes in floating point, so the combat level is part of the levels snapshot.
- **Other `PathfinderConfig` members.** `hasItemsInInventoryEquipmentOrBank`, `hasDestination`, `getDestinations` and `getMap` are not called by the modelled core.
- **Rune-pouch enum lookup.** `EnumComposition` is a snapshot: the pouch slots arrive as rune ids and amounts.
- **Item catalogue.** `ItemVariations` and the RuneLite item, varbit and quest ids are given as a `GameIds`/`Catalog` value.
- **Unseen `TransportType` members.** `refine`, `isTeleport()`, `hasEnabledGetter` and `getCostGetter` are called but not declared in the shown enum. They are catalogue functions.
- **`toString`.** All `toString` methods are left out.
- **`TransportItems` index getters and `hashCode`.** The per-index getters and `hashCode` of `TransportItems` are left out.
- **Cost overflow.** The node cost lemmas `Nodes.StepCosts` and `Nodes.TransportStepCosts` state the sum only when it fits in an `int`. The wrapped sum is what the model computes.
- SplitFlagMaps.FromResources: takes each region file with its coordinates already read from its name, and requires them in range (`RegionCoordinates`, `SpanFits`). The `split("_")` and `Integer.parseInt` of the name, and the exception a malformed name throws, are not modelled.
- JavaStrings.ParseInt: accepts ASCII digits only. `Integer.parseInt` reads digits through `Character.digit`, which also takes the other Unicode decimal digits (Arabic-Indic, fullwidth and so on). This carries over to `WorldPointParsing.Parse` and every numeric cell of a table.
- ItemRequirementParsing.Parse: upper-cases ASCII letters only. `String.toUpperCase` also maps other letters ('ı' and 'ſ' become 'I' and 'S'), and changes the length for some ('ß' becomes "SS").
- SkillRequirementParsing.Parse: lower-cases ASCII letters only, where `String.toLowerCase` maps every letter.
- **Logging.** Every `log.error` and `log.warn` call (in `Transport`, `SkillRequirementParser`, `TsvParser` and the loaders) is left out. The branches that log still take their effect on the value that is returned.
- **Malformed coordinates in the loader.** A non-numeric coordinate raises an uncaught `NumberFormatException` in `WorldPointParser`. It escapes the `Transport` constructor and ends the whole `addTransportsFromContents` call rather than skipping the row, so the model returns an error for the whole table. The code is followed here.

## Findings

| source | as written | input that shows it | evidently intended | confidence | as-written member | corrected member |
|---|---|---|---|---|---|---|
| src/main/java/shortestpath/pathfinder/PathfinderConfig.java:361-394 | `refreshTransportsForBankVisit` calls `disableUnless(FAIRY_RING, true)`, which changes nothing, so the type that `refreshTransports` disabled stays disabled and `useTransport` rejects every fairy ring | Fairy Tale II varbit above 39, Lumbridge elite diary not done, a Dramen staff only in the bank: `refreshTransports` disables `FAIRY_RING`, and `setBankVisited(true, …)` then adds no fairy ring | on a bank visit with the staff in the bank, the fairy-ring type gets back its configured state and the usable fairy rings are added | not executed | PathfinderConfigs.PathfinderConfig.RefreshTransportsForBankVisitAsWritten, PathfinderConfigs.PathfinderConfig.SetBankVisited, PathfinderConfigs.DisabledFairyRingsStayAway | PathfinderConfigs.PathfinderConfig.RefreshTransportsForBankVisit, PathfinderConfigs.PathfinderConfig.SetBankVisitedIntended, PathfinderConfigs.EnabledFairyRingsAreAdded |
| src/main/java/shortestpath/transport/requirement/TransportItems.java:135-146 | `equals(Object o)` casts `o` to `TransportItems` with no `null` or class check | `items.equals(null)` throws a NullPointerException and `items.equals("x")` a ClassCastException | `equals` answers false for `null` and for another class, as the `Object.equals` contract requires | not executed | TransportItemsModel.EqualsTo | TransportItemsModel.EqualsObjectContract |
