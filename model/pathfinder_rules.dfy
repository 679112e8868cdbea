/**
 * The decisions `PathfinderConfig` takes about one transport: `useTransport` with its parts
 * (`checkPohVariant`, `checkTeleportationItemRules`, `checkJewelleryBoxTier`,
 * `hasRequiredLevels`, `completedQuests`, `varbitChecks`, `varPlayerChecks`), the transport
 * overload of `hasRequiredItems`, and the map rewrites its refresh methods perform. Everything
 * here is a function of an explicit snapshot of the configuration's state.
 */
module TransportRules {
  import opened Wrappers
  import opened JavaStrings
  import opened Worlds
  import opened TransportTypes
  import opened TransportTypeConfigs
  import opened VarRequirements
  import opened ItemRequirements
  import opened TransportItemsModel
  import opened ItemChecks
  import opened Transports

  datatype QuestState = NOT_STARTED | IN_PROGRESS | FINISHED

  /** The jewellery box built in the player-owned house; before the first refresh it is `null` (`None`). */
  datatype JewelleryBoxTier = NONE | BASIC | FANCY | ORNATE

  /** The plugin settings `refresh` copies, after the plugin's overrides. */
  datatype Options = Options(
    avoidWilderness: bool,
    usePoh: bool,
    usePohFairyRing: bool,
    usePohSpiritTree: bool,
    usePohMountedItems: bool,
    usePohObelisk: bool,
    includeBankPath: bool,
    pohJewelleryBoxTier: Option<JewelleryBoxTier>,
    currencyThreshold: int,
    costConsumableTeleportationItems: int)

  /**
   * The game constants the configuration refers to (RuneLite item, varbit and quest ids);
   * `runePouchVarbits` pairs each rune-pouch slot's rune varbit with its quantity varbit.
   */
  datatype GameIds = GameIds(
    runePouches: seq<int>,
    runePouchVarbits: seq<(int, int)>,
    currencies: set<int>,
    dramenStaves: seq<Int32>,
    fairyTaleIIVarbit: int,
    lumbridgeEliteVarbit: int,
    theGrandTree: nat,
    boneVoyage: nat,
    treeGnomeVillage: nat)

  /**
   * Everything the decisions read apart from the cached quest and variable values: the settings,
   * the type flags, the player's levels and the item containers.
   */
  datatype Rules = Rules(
    world: World,
    ids: GameIds,
    options: Options,
    enabled: map<TransportType, bool>,
    teleportSetting: TeleportationItem,
    levels: seq<int>,
    nowMinutes: int,
    inventory: Option<seq<Item>>,
    equipment: Option<seq<Item>>,
    runeSlots: seq<RuneSlot>,
    bank: Option<seq<Item>>,
    bankVisited: bool)

  /** The quest states and variable values a decision looks up; `None` is a value that is not known. */
  datatype Lookups = Lookups(
    questState: nat -> QuestState,
    varbit: int -> Option<Int32>,
    varp: int -> Option<Int32>)

  /** `getOrDefault(id, 0)` on the cached values. */
  function ValueOr0(lookup: int -> Option<Int32>, id: int): int {
    match lookup(id)
    case None => 0
    case Some(v) => v
  }

  /** `isEnabled(type)`: unmapped types, and a `null` type, are enabled. */
  predicate TypeEnabled(enabled: map<TransportType, bool>, t: Option<TransportType>) {
    match t
    case None => true
    case Some(tt) => tt !in enabled || enabled[tt]
  }

  /** `checkPohVariant`: inside the house, fairy rings, spirit trees and obelisks each have their own switch. */
  predicate CheckPohVariant(w: World, options: Options, origin: int, t: Option<TransportType>) {
    if !InPoh(w, origin) then true
    else if t == Some(FAIRY_RING) then options.usePohFairyRing
    else if t == Some(SPIRIT_TREE) then options.usePohSpiritTree
    else if t == Some(WILDERNESS_OBELISK) then options.usePohObelisk
    else true
  }

  /** The settings that only allow teleport items that are not used up. */
  predicate NonConsumableOnly(setting: TeleportationItem) {
    setting == ALL_NON_CONSUMABLE || setting == UNLOCKED_NON_CONSUMABLE
    || setting == INVENTORY_NON_CONSUMABLE || setting == INVENTORY_AND_BANK_NON_CONSUMABLE
  }

  /** The types the teleport-item setting governs. */
  predicate IsTeleportItemType(t: Option<TransportType>) {
    t == Some(TELEPORTATION_ITEM) || t == Some(SEASONAL_TRANSPORTS)
  }

  /** `checkTeleportationItemRules`. */
  function CheckTeleportationItemRules(setting: TeleportationItem, t: Option<TransportType>, isConsumable: bool): (ok: bool)
    ensures ok <==> !IsTeleportItemType(t) || (setting != TeleportationItem.NONE && (NonConsumableOnly(setting) ==> !isConsumable))
  {
    if !IsTeleportItemType(t) then true
    else
      match setting
      case ALL => true
      case ALL_NON_CONSUMABLE => !isConsumable
      case UNLOCKED => true
      case INVENTORY => true
      case INVENTORY_AND_BANK => true
      case NONE => false
      case UNLOCKED_NON_CONSUMABLE => !isConsumable
      case INVENTORY_NON_CONSUMABLE => !isConsumable
      case INVENTORY_AND_BANK_NON_CONSUMABLE => !isConsumable
  }

  /** The objects mounted in the house rather than placed in a jewellery box. */
  predicate IsMountedItem(info: string) {
    Contains(info, "Amulet of Glory") || Contains(info, "Xeric's Talisman")
    || Contains(info, "Digsite") || Contains(info, "Mythical cape")
  }

  /** `checkJewelleryBoxTier`, for `TELEPORTATION_BOX` transports. */
  predicate CheckJewelleryBoxTier(options: Options, objectInfo: Option<string>) {
    match objectInfo
    case None => false
    case Some(info) =>
      var tier := options.pohJewelleryBoxTier;
      if IsMountedItem(info) then
        if Contains(info, "Amulet of Glory") && tier == Some(ORNATE) then false else options.usePohMountedItems
      else if tier == Some(JewelleryBoxTier.NONE) then false
      else if Contains(info, "Basic Jewellery Box 37492") then true
      else if Contains(info, "Fancy Jewellery Box 37501") then tier == Some(FANCY) || tier == Some(ORNATE)
      else if Contains(info, "Ornate Jewellery Box 37520") then tier == Some(ORNATE)
      else false
  }

  /** The rank of a tier; a better box offers every destination of a lesser one. */
  function TierRank(tier: Option<JewelleryBoxTier>): nat {
    match tier
    case None => 0
    case Some(NONE) => 0
    case Some(BASIC) => 1
    case Some(FANCY) => 2
    case Some(ORNATE) => 3
  }

  /**
   * Tiers nest: a jewellery box usable at some tier stays usable at any tier at least as good,
   * except that the ornate box replaces the mounted glory, and tier `NONE` allows no box at all.
   */
  lemma JewelleryBoxTiersNest(options: Options, info: string, better: JewelleryBoxTier)
    requires !IsMountedItem(info)
    requires options.pohJewelleryBoxTier.Some?
    requires TierRank(Some(better)) >= TierRank(options.pohJewelleryBoxTier)
    ensures CheckJewelleryBoxTier(options, Some(info)) ==>
      CheckJewelleryBoxTier(options.(pohJewelleryBoxTier := Some(better)), Some(info))
    ensures options.pohJewelleryBoxTier == Some(JewelleryBoxTier.NONE) ==> !CheckJewelleryBoxTier(options, Some(info))
  {
  }

  /** With the ornate box the mounted glory is never used; other mounted items follow their switch. */
  lemma OrnateBoxHidesMountedGlory(options: Options, info: string)
    requires Contains(info, "Amulet of Glory")
    ensures options.pohJewelleryBoxTier == Some(ORNATE) ==> !CheckJewelleryBoxTier(options, Some(info))
    ensures options.pohJewelleryBoxTier != Some(ORNATE) ==>
      CheckJewelleryBoxTier(options, Some(info)) == options.usePohMountedItems
  {
  }

  /** `hasRequiredLevels`: every boosted level reaches the required one, slot by slot. */
  function HasRequiredLevels(levels: seq<int>, required: seq<int>): (ok: bool)
    requires |required| >= |levels|
    ensures ok <==> forall i :: 0 <= i < |levels| ==> levels[i] >= required[i]
    decreases |levels|
  {
    if levels == [] then true
    else if levels[0] < required[0] then false
    else HasRequiredLevels(levels[1..], required[1..])
  }

  /** `completedQuests`: every listed quest is finished; an unknown quest counts as not started. */
  predicate CompletedQuests(questState: nat -> QuestState, quests: set<nat>) {
    forall q :: q in quests ==> questState(q) == FINISHED
  }

  /** `check` of one requirement against a looked-up value: an unknown value fails. */
  predicate VarCheck(r: VarRequirement, lookup: int -> Option<Int32>, nowMinutes: int) {
    match lookup(r.id)
    case None => false
    case Some(v) => Check(r, map[r.id := v], nowMinutes)
  }

  /** A map of cached values read through `getOrDefault`-style lookups. */
  function MapLookup(values: map<int, Int32>): int -> Option<Int32> {
    id => if id in values then Some(values[id]) else None
  }

  /** Checking against a looked-up value is `VarRequirement.check` against the cache it came from. */
  lemma VarCheckIsCheck(r: VarRequirement, values: map<int, Int32>, nowMinutes: int)
    ensures VarCheck(r, MapLookup(values), nowMinutes) == Check(r, values, nowMinutes)
  {
  }

  /** `varbitChecks` / `varPlayerChecks`: every requirement of the kind holds. */
  predicate VarChecks(reqs: set<VarRequirement>, lookup: int -> Option<Int32>, nowMinutes: int) {
    forall r :: r in reqs ==> VarCheck(r, lookup, nowMinutes)
  }

  /** `useTransport`, in the order the source tests its conditions. */
  predicate Eligible(r: Rules, l: Lookups, t: Transport)
    requires |t.skillLevels| >= |r.levels|
  {
    && !(!r.options.usePoh && InPoh(r.world, t.origin))
    && TypeEnabled(r.enabled, t.transportType)
    && CheckPohVariant(r.world, r.options, t.origin, t.transportType)
    && CheckTeleportationItemRules(r.teleportSetting, t.transportType, t.isConsumable)
    && (t.transportType == Some(TELEPORTATION_BOX) ==> CheckJewelleryBoxTier(r.options, t.objectInfo))
    && HasRequiredLevels(r.levels, t.skillLevels)
    && (t.IsQuestLocked() ==> CompletedQuests(l.questState, t.quests))
    && VarChecks(Varbits(t.varRequirements), l.varbit, r.nowMinutes)
    && VarChecks(VarPlayers(t.varRequirements), l.varp, r.nowMinutes)
  }

  /**
   * A usable transport has an enabled type, every required level, every required quest finished
   * and every variable requirement met; a house transport also needs the house switched on.
   */
  lemma EligibleMeetsRequirements(r: Rules, l: Lookups, t: Transport)
    requires |t.skillLevels| >= |r.levels|
    requires Eligible(r, l, t)
    ensures TypeEnabled(r.enabled, t.transportType)
    ensures forall i :: 0 <= i < |r.levels| ==> r.levels[i] >= t.skillLevels[i]
    ensures forall q :: q in t.quests ==> l.questState(q) == FINISHED
    ensures forall v :: v in t.varRequirements ==> VarCheck(v, if v.IsVarbit() then l.varbit else l.varp, r.nowMinutes)
    ensures InPoh(r.world, t.origin) ==> r.options.usePoh
  {
    forall v | v in t.varRequirements
      ensures VarCheck(v, if v.IsVarbit() then l.varbit else l.varp, r.nowMinutes)
    {
      KindIsExclusive(v);
      if v.IsVarbit() {
        assert v in Varbits(t.varRequirements);
      } else {
        assert v in VarPlayers(t.varRequirements);
      }
    }
  }

  /** A disabled type makes every transport of it unusable, whatever else holds. */
  lemma DisabledTypeIsNeverEligible(r: Rules, l: Lookups, t: Transport)
    requires |t.skillLevels| >= |r.levels|
    requires t.transportType.Some? && t.transportType.value in r.enabled && !r.enabled[t.transportType.value]
    ensures !Eligible(r, l, t)
  {
  }

  /** The lookups agree on everything `t` asks about. */
  predicate AgreeOn(a: Lookups, b: Lookups, t: Transport) {
    && (forall q :: q in t.quests ==> a.questState(q) == b.questState(q))
    && (forall v :: v in t.varRequirements && v.IsVarbit() ==> a.varbit(v.id) == b.varbit(v.id))
    && (forall v :: v in t.varRequirements && v.IsVarPlayer() ==> a.varp(v.id) == b.varp(v.id))
  }

  /** `useTransport` reads only the cached values of the transport's own quests and variables. */
  lemma EligibleReadsOwnEntries(r: Rules, a: Lookups, b: Lookups, t: Transport)
    requires |t.skillLevels| >= |r.levels|
    requires AgreeOn(a, b, t)
    ensures Eligible(r, a, t) == Eligible(r, b, t)
  {
    assert VarChecks(Varbits(t.varRequirements), a.varbit, r.nowMinutes)
        == VarChecks(Varbits(t.varRequirements), b.varbit, r.nowMinutes);
    assert VarChecks(VarPlayers(t.varRequirements), a.varp, r.nowMinutes)
        == VarChecks(VarPlayers(t.varRequirements), b.varp, r.nowMinutes);
  }

  /** `hasRequiredLevels`: the loop over the slots, stopping at the first level below the requirement. */
  method RequiredLevelsMet(levels: seq<int>, required: seq<int>) returns (ok: bool)
    requires |required| >= |levels|
    ensures ok == HasRequiredLevels(levels, required)
  {
    for i := 0 to |levels|
      invariant forall j :: 0 <= j < i ==> levels[j] >= required[j]
    {
      if levels[i] < required[i] {
        return false;
      }
    }
    return true;
  }

  /** `completedQuests`: the loop over the quests, stopping at the first one not finished. */
  method QuestsCompleted(questState: nat -> QuestState, quests: set<nat>) returns (ok: bool)
    ensures ok == CompletedQuests(questState, quests)
  {
    var rest := quests;
    while rest != {}
      invariant rest <= quests
      invariant forall q :: q in quests - rest ==> questState(q) == FINISHED
      decreases rest
    {
      ghost var someQuest := Pick(rest);
      var quest :| quest in rest;
      if questState(quest) != FINISHED {
        return false;
      }
      TakeOne(quests, rest, quest);
      rest := rest - {quest};
    }
    return true;
  }

  /** `varbitChecks` / `varPlayerChecks`: the loop over the requirements, stopping at the first that fails. */
  method RequirementsMet(reqs: set<VarRequirement>, lookup: int -> Option<Int32>, nowMinutes: int) returns (ok: bool)
    ensures ok == VarChecks(reqs, lookup, nowMinutes)
  {
    var rest := reqs;
    while rest != {}
      invariant rest <= reqs
      invariant forall v :: v in reqs - rest ==> VarCheck(v, lookup, nowMinutes)
      decreases rest
    {
      ghost var someRequirement := Pick(rest);
      var req :| req in rest;
      if !VarCheck(req, lookup, nowMinutes) {
        return false;
      }
      TakeOne(reqs, rest, req);
      rest := rest - {req};
    }
    return true;
  }

  /** `useTransport`: the conditions tested one after another, the first that fails deciding. */
  method UseTransport(r: Rules, l: Lookups, t: Transport) returns (ok: bool)
    requires |t.skillLevels| >= |r.levels|
    ensures ok == Eligible(r, l, t)
  {
    if !r.options.usePoh && InPoh(r.world, t.origin) {
      return false;
    }
    if !TypeEnabled(r.enabled, t.transportType) || !CheckPohVariant(r.world, r.options, t.origin, t.transportType) {
      return false;
    }
    if !CheckTeleportationItemRules(r.teleportSetting, t.transportType, t.isConsumable) {
      return false;
    }
    if t.transportType == Some(TELEPORTATION_BOX) && !CheckJewelleryBoxTier(r.options, t.objectInfo) {
      return false;
    }
    ok := RequiredLevelsMet(r.levels, t.skillLevels);
    if !ok {
      return;
    }
    if t.IsQuestLocked() {
      ok := QuestsCompleted(l.questState, t.quests);
      if !ok {
        return;
      }
    }
    var varbits := t.GetVarbits();
    ok := RequirementsMet(varbits, l.varbit, r.nowMinutes);
    if !ok {
      return;
    }
    var varPlayers := t.GetVarPlayers();
    ok := RequirementsMet(varPlayers, l.varp, r.nowMinutes);
  }

  /** Which containers a `hasRequiredItems` call looks at. */
  datatype Checked = Checked(inventory: bool, equipment: bool, bank: bool, runePouch: bool)

  const EVERY_CONTAINER := Checked(true, true, true, true)
  const ON_PLAYER := Checked(true, true, false, false)
  const BANK_ONLY := Checked(false, false, true, false)

  /**
   * The bank counts only once it has been seen, has been visited on the path, and either bank
   * trips are planned or the teleport setting allows items from the bank.
   */
  predicate BankCounts(r: Rules) {
    r.bank.Some? && r.bankVisited
    && (r.options.includeBankPath || r.teleportSetting == INVENTORY_AND_BANK
        || r.teleportSetting == INVENTORY_AND_BANK_NON_CONSUMABLE)
  }

  function ContainersFor(r: Rules, checked: Checked): Containers {
    Containers(
      if checked.inventory then r.inventory else None,
      if checked.equipment then r.equipment else None,
      if checked.bank && BankCounts(r) then r.bank else None,
      if checked.runePouch then Some(r.runeSlots) else None)
  }

  /** `hasRequiredItems(transportItems, …)` against the containers being checked. */
  predicate ItemsAvailable(r: Rules, items: Option<TransportItems>, checked: Checked) {
    ItemsMet(items, Holdings(ContainersFor(r, checked), r.ids.runePouches), r.ids.currencies, r.options.currencyThreshold)
  }

  /** `DRAMEN_STAFF`: one group met by any Dramen or Lunar staff, given as a staff substitute. */
  function DramenStaff(ids: GameIds): TransportItems {
    TransportItems([ItemRequirement(NullArray, Arr(ids.dramenStaves), NullArray, 1)])
  }

  /** The settings under which teleport items need not be held at all. */
  predicate TeleportItemsUnchecked(setting: TeleportationItem) {
    setting == ALL || setting == ALL_NON_CONSUMABLE || setting == UNLOCKED || setting == UNLOCKED_NON_CONSUMABLE
  }

  /**
   * `hasRequiredItems(transport, …)`: the teleport-item setting may decide on its own; a fairy ring
   * needs a staff unless the Lumbridge elite diary is done; then the transport's own items.
   */
  predicate ItemsOk(r: Rules, l: Lookups, t: Transport, checked: Checked) {
    if IsTeleportItemType(t.transportType) && TeleportItemsUnchecked(r.teleportSetting) then true
    else if IsTeleportItemType(t.transportType) && r.teleportSetting == TeleportationItem.NONE then false
    else
      (t.transportType == Some(FAIRY_RING) && ValueOr0(l.varbit, r.ids.lumbridgeEliteVarbit) != 1 ==>
         ItemsAvailable(r, Some(DramenStaff(r.ids)), checked))
      && ItemsAvailable(r, t.itemRequirements, checked)
  }

  /** Without the Lumbridge elite diary, a fairy ring is only usable with a staff in a checked container. */
  lemma FairyRingNeedsStaff(r: Rules, l: Lookups, t: Transport, checked: Checked)
    requires t.transportType == Some(FAIRY_RING)
    requires ValueOr0(l.varbit, r.ids.lumbridgeEliteVarbit) != 1
    requires ItemsOk(r, l, t, checked)
    ensures exists k :: (0 <= k < |r.ids.dramenStaves|
      && HeldOf(Holdings(ContainersFor(r, checked), r.ids.runePouches), r.ids.dramenStaves[k]) >= 1)
  {
    var items := DramenStaff(r.ids);
    var held := Holdings(ContainersFor(r, checked), r.ids.runePouches);
    ResolvedSourcesServe(items.requirements, held, r.ids.currencies, r.options.currencyThreshold, false, false);
    var s := Resolve(items.requirements, held, r.ids.currencies, r.options.currencyThreshold, false, false).value;
    assert Serves(s[0], items.requirements[0], held, r.ids.currencies, r.options.currencyThreshold);
    var id := s[0].id;
    assert id in r.ids.dramenStaves;
    var k :| 0 <= k < |r.ids.dramenStaves| && r.ids.dramenStaves[k] == id;
  }

  /** Without the bank counting, the bank never contributes an item. */
  lemma UnvisitedBankIgnored(r: Rules, checked: Checked)
    requires !r.bankVisited || r.bank.None?
    ensures ContainersFor(r, checked).bank.None?
    ensures Holdings(ContainersFor(r, checked), r.ids.runePouches)
      == Holdings(ContainersFor(r, checked.(bank := false)), r.ids.runePouches)
  {
  }

  /** `avoidWilderness(position, neighbor, targetInWilderness)`: only a step into the wilderness from outside it. */
  predicate AvoidWilderness(w: World, avoid: bool, position: int, neighbor: int, targetInWilderness: bool) {
    avoid && !targetInWilderness && !w.inWilderness(position) && w.inWilderness(neighbor)
  }

  /** A path whose target lies in the wilderness, or a step that stays outside it, is never avoided. */
  lemma AvoidOnlyEntering(w: World, avoid: bool, position: int, neighbor: int, targetInWilderness: bool)
    ensures AvoidWilderness(w, avoid, position, neighbor, targetInWilderness) ==>
      !w.inWilderness(position) && w.inWilderness(neighbor)
    ensures targetInWilderness || !avoid ==> !AvoidWilderness(w, avoid, position, neighbor, targetInWilderness)
  {
  }

  /** `map.getOrDefault(k, new HashSet<>())`. */
  function SetAt(m: map<int, set<Transport>>, k: int): set<Transport> {
    if k in m then m[k] else {}
  }

  /** Every transport held under some key inside the house. */
  ghost function HouseTransports(w: World, m: map<int, set<Transport>>): set<Transport> {
    set k, t | k in m && InPoh(w, k) && t in m[k] :: t
  }

  /** `remapPohTransports`: keys inside the house are dropped and their transports join the landing tile's set. */
  ghost function RemapPoh(w: World, m: map<int, set<Transport>>): map<int, set<Transport>> {
    var kept := map k | k in m && !InPoh(w, k) :: m[k];
    var moved := HouseTransports(w, m);
    if moved == {} then kept else kept[PohLanding(w) := SetAt(kept, PohLanding(w)) + moved]
  }

  /**
   * After the remap, no key other than the landing tile lies inside the house; every transport
   * that was under a house key is at the landing tile; keys outside the house keep their
   * transports, and nothing else is added.
   */
  lemma RemapPohMovesHouseTransports(w: World, m: map<int, set<Transport>>)
    ensures forall k :: k in RemapPoh(w, m) && k != PohLanding(w) ==> !InPoh(w, k)
    ensures forall k :: k in m && InPoh(w, k) && m[k] != {} ==>
      PohLanding(w) in RemapPoh(w, m) && m[k] <= RemapPoh(w, m)[PohLanding(w)]
    ensures forall k :: k in m && !InPoh(w, k) ==> k in RemapPoh(w, m) && m[k] <= RemapPoh(w, m)[k]
    ensures forall k, t :: k in RemapPoh(w, m) && t in RemapPoh(w, m)[k] ==> exists j :: j in m && t in m[j]
  {
    forall k | k in m && InPoh(w, k) && m[k] != {} {
      HouseTransportsLand(w, m, k);
    }
  }

  lemma HouseTransportsLand(w: World, m: map<int, set<Transport>>, k: int)
    requires k in m && InPoh(w, k) && m[k] != {}
    ensures PohLanding(w) in RemapPoh(w, m) && m[k] <= RemapPoh(w, m)[PohLanding(w)]
  {
    var moved := HouseTransports(w, m);
    NonEmptyHasMember(m[k]);
    var t :| t in m[k];
    assert t in moved;
    MemberMeansNonEmpty(moved, t);
    assert m[k] <= moved;
  }

  /** Adding a non-empty set at a key, as `refreshTeleports` and the bank-visit refresh do. */
  function AddAt(m: map<int, set<Transport>>, k: int, s: set<Transport>): (r: map<int, set<Transport>>)
    ensures r.Keys == m.Keys + (if s == {} then {} else {k})
    ensures forall j :: j in m && j != k ==> r[j] == m[j]
    ensures k in r ==> r[k] == SetAt(m, k) + s
  {
    if s == {} then m else m[k := SetAt(m, k) + s]
  }

  /** Adding a set of transports per key. */
  function AddAll(m: map<int, set<Transport>>, adds: map<int, set<Transport>>): (r: map<int, set<Transport>>)
    ensures forall k :: k in r <==> k in m || (k in adds && adds[k] != {})
    ensures forall k :: k in r ==> r[k] == SetAt(m, k) + SetAt(adds, k)
  {
    map k | k in m.Keys + adds.Keys && (k in m || adds[k] != {}) :: SetAt(m, k) + SetAt(adds, k)
  }

  /** The teleports `refreshTeleports` may add at a wilderness level. */
  function WildernessTeleports(teleports: set<Transport>, wildernessLevel: int): (s: set<Transport>)
    ensures s <= teleports
    ensures forall t :: t in teleports ==> (t in s <==> wildernessLevel <= t.maxWildernessLevel)
  {
    set t | t in teleports && wildernessLevel <= t.maxWildernessLevel
  }

  /** The map of destination types with the wilderness destinations removed (`filterDestinations`). */
  function OutsideWilderness(w: World, destinations: set<int>): (s: set<int>)
    ensures s <= destinations
    ensures forall d :: d in destinations ==> (d in s <==> !w.inWilderness(d))
  {
    set d | d in destinations && !w.inWilderness(d)
  }

  function FilteredDestinations(w: World, all: map<string, set<int>>): (f: map<string, set<int>>)
    ensures forall k :: k in f ==> k in all && f[k] == OutsideWilderness(w, all[k])
  {
    map k | k in all && OutsideWilderness(w, all[k]) != {} :: OutsideWilderness(w, all[k])
  }

  /**
   * A destination type survives the filter iff one of its destinations is outside the wilderness,
   * and then it keeps exactly those destinations.
   */
  lemma FilteredDestinationsKeepOutside(w: World, all: map<string, set<int>>, k: string)
    ensures k in FilteredDestinations(w, all) <==> k in all && exists d :: d in all[k] && !w.inWilderness(d)
    ensures k in FilteredDestinations(w, all) ==>
      forall d :: d in FilteredDestinations(w, all)[k] <==> d in all[k] && !w.inWilderness(d)
  {
    if k in all && OutsideWilderness(w, all[k]) != {} {
      NonEmptyHasMember(OutsideWilderness(w, all[k]));
    }
    if k in all && exists d :: d in all[k] && !w.inWilderness(d) {
      var d :| d in all[k] && !w.inWilderness(d);
      MemberMeansNonEmpty(OutsideWilderness(w, all[k]), d);
    }
  }

  lemma NonEmptyHasMember<T>(s: set<T>)
    requires s != {}
    ensures exists x :: x in s
  {
    var x :| x in s;
  }

  /** A member of a non-empty set, for choosing one with `:|` afterwards. */
  lemma Pick<T>(s: set<T>) returns (x: T)
    requires s != {}
    ensures x in s
  {
    x :| x in s;
  }

  /** Moving one member from the pending part of `all` to the done part. */
  lemma TakeOne<T>(all: set<T>, pending: set<T>, x: T)
    requires x in pending && pending <= all
    ensures all - (pending - {x}) == (all - pending) + {x}
  {
  }

  lemma MemberMeansNonEmpty<T>(s: set<T>, x: T)
    requires x in s
    ensures s != {}
  {
  }
}
