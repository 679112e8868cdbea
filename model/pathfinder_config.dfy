/**
 * `PathfinderConfig`: the object the search asks which transports it may take. `refresh` copies the
 * settings and, when the player is logged in, rebuilds the map of usable transports from the
 * client's state; during a search, `setBankVisited` and `refreshTeleports` only add to that map.
 */
module PathfinderConfigs {
  import opened Wrappers
  import opened JavaStrings
  import opened Worlds
  import opened TransportTypes
  import opened TransportTypeConfigs
  import opened VarRequirements
  import opened TransportItemsModel
  import opened ItemChecks
  import opened Transports
  import opened TransportRules

  /**
   * What the client reports while a refresh runs: the game state, the boosted levels (each skill,
   * then total level, combat level and quest points), quest states, variable values, the worn and
   * carried items, and the rune-pouch enum.
   */
  datatype ClientState = ClientState(
    loggedIn: bool,
    boostedLevels: seq<int>,
    questState: nat -> QuestState,
    varbit: int -> Int32,
    varp: int -> Int32,
    inventory: Option<seq<Item>>,
    equipment: Option<seq<Item>>,
    runeEnum: int -> int,
    nowMinutes: int)

  /** The rune-pouch slots as the client's varbits describe them; a rune varbit of 0 or less is no rune. */
  function PouchSlots(client: ClientState, ids: GameIds): seq<RuneSlot> {
    seq(|ids.runePouchVarbits|, i requires 0 <= i < |ids.runePouchVarbits| =>
      var runeEnumId := client.varbit(ids.runePouchVarbits[i].0);
      RuneSlot(if runeEnumId > 0 then client.runeEnum(runeEnumId) else 0, client.varbit(ids.runePouchVarbits[i].1)))
  }

  /** Asking the client directly. */
  function LiveLookups(client: ClientState): Lookups {
    Lookups(client.questState, id => Some(client.varbit(id)), id => Some(client.varp(id)))
  }

  /** Asking the caches: an unknown quest is not started and an unknown variable has no value. */
  function CachedLookups(quests: map<nat, QuestState>, varbits: map<int, Int32>, varps: map<int, Int32>): Lookups {
    Lookups(q => if q in quests then quests[q] else NOT_STARTED, MapLookup(varbits), MapLookup(varps))
  }

  /** The variable ids a set of requirements refers to. */
  function VarIds(reqs: set<VarRequirement>): set<int> {
    set v | v in reqs :: v.id
  }

  /** The transports of `ts` that are usable and whose items are available in the checked containers. */
  function Usable(r: Rules, l: Lookups, ts: set<Transport>, checked: Checked): (s: set<Transport>)
    ensures s <= ts
  {
    set t | t in ts && |t.skillLevels| >= |r.levels| && Eligible(r, l, t) && ItemsOk(r, l, t, checked)
  }

  /** A transport is usable exactly when it is among `ts`, passes `useTransport` and has its items. */
  lemma UsableMeans(r: Rules, l: Lookups, ts: set<Transport>, checked: Checked, t: Transport)
    ensures t in Usable(r, l, ts, checked)
      <==> t in ts && |t.skillLevels| >= |r.levels| && Eligible(r, l, t) && ItemsOk(r, l, t, checked)
  {
  }

  /** The usable transports of every origin. */
  function UsableByOrigin(r: Rules, l: Lookups, all: map<int, set<Transport>>): (m: map<int, set<Transport>>)
    ensures m.Keys == all.Keys
    ensures forall k :: k in m ==> m[k] <= all[k]
  {
    map k | k in all :: Usable(r, l, all[k], EVERY_CONTAINER)
  }

  /** The entries of `m` under `keys`, other than `undefined`, that are not empty. */
  function NonEmptyEntries(m: map<int, set<Transport>>, undefined: int, keys: set<int>): (e: map<int, set<Transport>>)
    ensures forall k :: k in e <==> k in keys && k in m && k != undefined && m[k] != {}
    ensures forall k :: k in e ==> e[k] == m[k]
  {
    map k | k in keys && k in m && k != undefined && m[k] != {} :: m[k]
  }

  /** The usable transports per origin among `keys`; teleports and origins left with nothing are not keys. */
  function UsableMap(r: Rules, l: Lookups, all: map<int, set<Transport>>, undefined: int, keys: set<int>)
    : (m: map<int, set<Transport>>)
    ensures forall k :: k in m ==> k in keys && k in all && k != undefined && m[k] != {} && m[k] <= all[k]
  {
    NonEmptyEntries(UsableByOrigin(r, l, all), undefined, keys)
  }

  /** The usable teleports, kept under `undefined` because they start wherever the player stands. */
  function UsableTeleports(r: Rules, l: Lookups, all: map<int, set<Transport>>, undefined: int, checked: Checked)
    : set<Transport>
  {
    if undefined in all then Usable(r, l, all[undefined], checked) else {}
  }

  /** The fairy rings of `ts` that pass `useTransport`. */
  function FairyRingsAt(r: Rules, l: Lookups, ts: set<Transport>): (s: set<Transport>)
    ensures s <= ts
    ensures forall t :: t in ts ==>
      (t in s <==> t.transportType == Some(FAIRY_RING) && |t.skillLevels| >= |r.levels| && Eligible(r, l, t))
  {
    set t | t in ts && t.transportType == Some(FAIRY_RING) && |t.skillLevels| >= |r.levels| && Eligible(r, l, t)
  }

  /** The fairy rings among `keys` that pass `useTransport`, as the bank-visit refresh adds them. */
  function FairyRingAdds(r: Rules, l: Lookups, all: map<int, set<Transport>>, undefined: int, keys: set<int>)
    : (adds: map<int, set<Transport>>)
    ensures adds.Keys == set k | k in keys && k in all && k != undefined
    ensures forall k, t :: k in adds && t in adds[k] ==>
      t in all[k] && t.transportType == Some(FAIRY_RING) && |t.skillLevels| >= |r.levels| && Eligible(r, l, t)
  {
    map k | k in keys && k in all && k != undefined :: FairyRingsAt(r, l, all[k])
  }

  /** A staff is held in the inventory or the equipment (the first staff check of `refreshTransports`). */
  predicate StaffOnPlayer(client: ClientState, ids: GameIds, options: Options) {
    ItemsMet(Some(DramenStaff(ids)), Holdings(Containers(client.inventory, client.equipment, None, None), ids.runePouches),
             ids.currencies, options.currencyThreshold)
  }

  /** `StaffOnPlayer` is the staff check of `hasRequiredItems` on the inventory and the equipment. */
  lemma StaffOnPlayerIsAvailable(r: Rules, client: ClientState)
    requires r.inventory == client.inventory && r.equipment == client.equipment
    ensures ItemsAvailable(r, Some(DramenStaff(r.ids)), ON_PLAYER) == StaffOnPlayer(client, r.ids, r.options)
  {
    assert ContainersFor(r, ON_PLAYER) == Containers(client.inventory, client.equipment, None, None);
  }

  /** The condition under which `refreshTransports` leaves a type as configured. */
  predicate TypeGate(client: ClientState, ids: GameIds, options: Options, t: TransportType) {
    match t
    case FAIRY_RING =>
      client.varbit(ids.fairyTaleIIVarbit) > 39
      && (client.varbit(ids.lumbridgeEliteVarbit) == 1 || StaffOnPlayer(client, ids, options))
    case GNOME_GLIDER => client.questState(ids.theGrandTree) == FINISHED
    case MAGIC_MUSHTREE => client.questState(ids.boneVoyage) == FINISHED
    case SPIRIT_TREE => client.questState(ids.treeGnomeVillage) == FINISHED
    case _ => true
  }

  /** `disableUnless` on a map of flags. */
  function DisabledUnless(enabled: map<TransportType, bool>, t: TransportType, condition: bool): map<TransportType, bool> {
    if condition then enabled else enabled[t := false]
  }

  /** The four `disableUnless` calls of `refreshTransports`, in order. */
  function Gated(enabled: map<TransportType, bool>, client: ClientState, ids: GameIds, options: Options)
    : map<TransportType, bool>
  {
    var afterFairyRing := DisabledUnless(enabled, FAIRY_RING, TypeGate(client, ids, options, FAIRY_RING));
    var afterGlider := DisabledUnless(afterFairyRing, GNOME_GLIDER, TypeGate(client, ids, options, GNOME_GLIDER));
    var afterMushtree := DisabledUnless(afterGlider, MAGIC_MUSHTREE, TypeGate(client, ids, options, MAGIC_MUSHTREE));
    DisabledUnless(afterMushtree, SPIRIT_TREE, TypeGate(client, ids, options, SPIRIT_TREE))
  }

  /** After the gating, a type is enabled iff it was enabled before and its gate is open. */
  lemma GatedTypes(enabled: map<TransportType, bool>, client: ClientState, ids: GameIds, options: Options, t: TransportType)
    ensures TypeEnabled(Gated(enabled, client, ids, options), Some(t))
      == (TypeEnabled(enabled, Some(t)) && TypeGate(client, ids, options, t))
  {
  }

  /** `hasStaffInBank`: a stack of some Dramen or Lunar staff with a positive quantity is in the bank. */
  predicate StaffInBank(bank: Option<seq<Item>>, staves: seq<Int32>) {
    bank.Some? && exists i, j :: (0 <= i < |staves| && 0 <= j < |bank.value|
      && bank.value[j].id == staves[i] && bank.value[j].quantity > 0)
  }

  /** The test at the head of `refreshTransportsForBankVisit`, on the cached varbits. */
  predicate BankVisitOpensFairyRings(varbits: map<int, Int32>, bank: Option<seq<Item>>, ids: GameIds) {
    ValueOr0(MapLookup(varbits), ids.fairyTaleIIVarbit) > 39
    && (ValueOr0(MapLookup(varbits), ids.lumbridgeEliteVarbit) == 1 || StaffInBank(bank, ids.dramenStaves))
  }

  /** Every set is non-empty and no key other than the landing tile lies inside the house. */
  predicate Remapped(w: World, m: map<int, set<Transport>>) {
    forall k :: k in m ==> m[k] != {} && (k == PohLanding(w) || !InPoh(w, k))
  }

  /** No transport in `m` is a fairy ring. */
  predicate NoFairyRings(m: map<int, set<Transport>>) {
    forall k, t :: k in m && t in m[k] ==> t.transportType != Some(FAIRY_RING)
  }

  /** `b` keeps every key and every transport of `a`. */
  predicate Grows(a: map<int, set<Transport>>, b: map<int, set<Transport>>) {
    forall k :: k in a ==> k in b && a[k] <= b[k]
  }

  /** The remap leaves a remapped map as it is. */
  lemma RemapPohIdempotent(w: World, m: map<int, set<Transport>>)
    requires Remapped(w, m)
    ensures RemapPoh(w, m) == m
  {
    var landing := PohLanding(w);
    var kept := map k | k in m && !InPoh(w, k) :: m[k];
    var moved := HouseTransports(w, m);
    if landing in m && InPoh(w, landing) {
      assert moved == m[landing];
      NonEmptyHasMember(m[landing]);
      var t :| t in m[landing];
      MemberMeansNonEmpty(moved, t);
      assert landing !in kept;
      assert SetAt(kept, landing) + moved == moved;
      var after := kept[landing := moved];
      assert RemapPoh(w, m) == after;
      assert after.Keys == m.Keys;
      assert forall k :: k in m ==> after[k] == m[k];
    } else {
      assert moved == {};
      assert kept == m;
    }
  }

  /** Adding to a remapped map and remapping again keeps everything that was there. */
  lemma RemapAfterAddingGrows(w: World, m: map<int, set<Transport>>, adds: map<int, set<Transport>>)
    requires Remapped(w, m)
    ensures Grows(m, RemapPoh(w, AddAll(m, adds)))
  {
    var a := AddAll(m, adds);
    RemapPohMovesHouseTransports(w, a);
    forall k | k in m
      ensures k in RemapPoh(w, a) && m[k] <= RemapPoh(w, a)[k]
    {
      if InPoh(w, k) {
        assert k == PohLanding(w);
        assert m[k] <= a[k];
      }
    }
  }

  /** The type flags after a bank visit: one that opens the fairy rings gives the type its configured state. */
  function BankVisitStates(enabled: map<TransportType, bool>, settings: Settings, teleportationItems: TeleportationItem,
                           opens: bool): (e: map<TransportType, bool>)
    ensures e.Keys == enabled.Keys + (if opens then {FAIRY_RING} else {})
    ensures forall t :: t in enabled && (t != FAIRY_RING || !opens) ==> e[t] == enabled[t]
    ensures opens ==> e[FAIRY_RING] == EnabledState(settings, teleportationItems, FAIRY_RING)
  {
    if opens then enabled[FAIRY_RING := EnabledState(settings, teleportationItems, FAIRY_RING)] else enabled
  }

  /**
   * The transports after the fairy-ring part of a bank visit: when the visit opens the fairy rings,
   * every fairy ring away from `w.undefined` that passes `useTransport` is added and the house remapped.
   */
  ghost function BankVisitFairyRings(w: World, r: Rules, l: Lookups, all: map<int, set<Transport>>,
                                     m: map<int, set<Transport>>, opens: bool): map<int, set<Transport>> {
    if opens then RemapPoh(w, AddAll(m, FairyRingAdds(r, l, all, w.undefined, all.Keys))) else m
  }

  /**
   * The bank-visit refresh as written cannot add a fairy ring once `refreshTransports` has disabled
   * the type: each candidate fails `useTransport`, so nothing is added and the remap only moves
   * what was there.
   */
  lemma DisabledFairyRingsStayAway(w: World, r: Rules, l: Lookups, all: map<int, set<Transport>>,
                                    m: map<int, set<Transport>>, opens: bool)
    requires FAIRY_RING in r.enabled && !r.enabled[FAIRY_RING]
    requires NoFairyRings(m)
    ensures NoFairyRings(BankVisitFairyRings(w, r, l, all, m, opens))
  {
    if !opens {
      return;
    }
    var adds := FairyRingAdds(r, l, all, w.undefined, all.Keys);
    var a := AddAll(m, adds);
    assert forall k :: k in adds ==> adds[k] == {};
    assert forall k :: k in a ==> k in m && a[k] == m[k];
    RemapPohMovesHouseTransports(w, a);
  }

  /**
   * With the type enabled, the bank-visit refresh adds every fairy ring that passes `useTransport`:
   * at its own tile outside the house, at the landing tile inside it.
   */
  lemma EnabledFairyRingsAreAdded(w: World, r: Rules, l: Lookups, all: map<int, set<Transport>>,
                                   m: map<int, set<Transport>>, k: int, t: Transport)
    requires k in all && k != w.undefined && t in all[k]
    requires t.transportType == Some(FAIRY_RING) && |t.skillLevels| >= |r.levels| && Eligible(r, l, t)
    ensures var after := BankVisitFairyRings(w, r, l, all, m, true);
      var at := if InPoh(w, k) then PohLanding(w) else k;
      at in after && t in after[at]
  {
    var adds := FairyRingAdds(r, l, all, w.undefined, all.Keys);
    assert t in adds[k];
    MemberMeansNonEmpty(adds[k], t);
    var a := AddAll(m, adds);
    assert t in a[k];
    RemapPohMovesHouseTransports(w, a);
    if InPoh(w, k) {
      assert a[k] != {};
    }
  }

  /**
   * A bank visit loses nothing from a remapped map: the fairy rings and the wilderness teleports
   * only add to what each tile already had.
   */
  lemma BankVisitGrows(w: World, r: Rules, l: Lookups, all: map<int, set<Transport>>,
                       m: map<int, set<Transport>>, opens: bool, location: int, teleports: set<Transport>)
    requires Remapped(w, m)
    ensures Grows(m, AddAt(BankVisitFairyRings(w, r, l, all, m, opens), location, teleports))
  {
    var mid := BankVisitFairyRings(w, r, l, all, m, opens);
    if opens {
      RemapAfterAddingGrows(w, m, FairyRingAdds(r, l, all, w.undefined, all.Keys));
    }
    AddAtGrows(mid, location, teleports);
    GrowsTransitive(m, mid, AddAt(mid, location, teleports));
  }

  lemma AddAtGrows(m: map<int, set<Transport>>, k: int, s: set<Transport>)
    ensures Grows(m, AddAt(m, k, s))
  {
  }

  lemma GrowsTransitive(a: map<int, set<Transport>>, b: map<int, set<Transport>>, c: map<int, set<Transport>>)
    requires Grows(a, b) && Grows(b, c)
    ensures Grows(a, c)
  {
  }

  /** With the bank counting, a staff in the bank meets the staff requirement of a fairy ring. */
  lemma StaffInBankIsAvailable(r: Rules)
    requires BankCounts(r) && StaffInBank(r.bank, r.ids.dramenStaves)
    requires forall i :: 0 <= i < |r.ids.dramenStaves| ==> r.ids.dramenStaves[i] >= 0
    ensures ItemsAvailable(r, Some(DramenStaff(r.ids)), BANK_ONLY)
  {
    var items := r.bank.value;
    var i, j :| 0 <= i < |r.ids.dramenStaves| && 0 <= j < |items|
      && items[j].id == r.ids.dramenStaves[i] && items[j].quantity > 0;
    var id := r.ids.dramenStaves[i];
    var last := LastCounted(items, id, j);
    PutItemsLastStackWins(map[], items, id);
    var held := Holdings(ContainersFor(r, BANK_ONLY), r.ids.runePouches);
    assert held == PutItems(map[], items);
    assert HeldOf(held, id) >= 1;
    var req := DramenStaff(r.ids).requirements[0];
    assert Holds(held, 1, false, req.staffIds.elems[i]);
    var found := FirstMatch(req.staffIds.elems, held, 1, false);
    assert found.Some?;
    assert GroupOutcome(req, held, r.ids.currencies, r.options.currencyThreshold, false, false).Met?;
    assert Resolve([req][1..], held, r.ids.currencies, r.options.currencyThreshold, true, false) == Some([]);
  }

  /** The last counted stack of `id` at or after `j`. */
  function LastCounted(items: seq<Item>, id: int, j: nat): (k: nat)
    requires j < |items| && Counted(items[j]) && items[j].id == id
    ensures j <= k < |items| && Counted(items[k]) && items[k].id == id
    ensures forall n :: k < n < |items| && Counted(items[n]) ==> items[n].id != id
    decreases |items| - j
  {
    if exists n :: j < n < |items| && Counted(items[n]) && items[n].id == id then
      var n :| j < n < |items| && Counted(items[n]) && items[n].id == id;
      LastCounted(items, id, n)
    else j
  }

  /** `filterDestinations`, run once by the constructor. */
  method FilterDestinations(w: World, all: map<string, set<int>>) returns (f: map<string, set<int>>)
    ensures f == FilteredDestinations(w, all)
  {
    f := map[];
    var pending := all.Keys;
    while pending != {}
      invariant pending <= all.Keys
      invariant f == map k | k in all.Keys - pending && OutsideWilderness(w, all[k]) != {} :: OutsideWilderness(w, all[k])
      decreases pending
    {
      var key :| key in pending;
      var usable: set<int> := {};
      var rest := all[key];
      while rest != {}
        invariant rest <= all[key]
        invariant usable == OutsideWilderness(w, all[key] - rest)
        decreases rest
      {
        ghost var someDestination := Pick(rest);
        var d :| d in rest;
        if !w.inWilderness(d) {
          usable := usable + {d};
        }
        rest := rest - {d};
      }
      assert all[key] - rest == all[key];
      if usable != {} {
        f := f[key := usable];
      }
      pending := pending - {key};
    }
  }

  /** The locations of `locations` inside the wilderness. */
  function WildernessLocations(w: World, locations: set<int>): (s: set<int>)
    ensures s <= locations
    ensures forall d :: d in locations ==> (d in s <==> w.inWilderness(d))
  {
    set d | d in locations && w.inWilderness(d)
  }

  /** Every location either stays outside the wilderness or is inside it: the two parts cover the set. */
  lemma WildernessSplits(w: World, locations: set<int>)
    ensures OutsideWilderness(w, locations) + WildernessLocations(w, locations) == locations
    ensures OutsideWilderness(w, locations) * WildernessLocations(w, locations) == {}
  {
  }

  /** The distinct locations held in a list of filtered targets. */
  function Targets(s: seq<int>): set<int> {
    set x | x in s
  }

  /** A list holding another's entries and those of `s` holds exactly their locations. */
  lemma TargetsOfMultiset(a: seq<int>, b: seq<int>, s: set<int>)
    requires multiset(b) == multiset(a) + multiset(s)
    ensures Targets(b) == Targets(a) + s
  {
    forall x
      ensures x in b <==> x in a || x in s
    {
      assert x in b <==> x in multiset(b);
      assert x in a <==> x in multiset(a);
    }
  }

  /** One more location seen by the loop of `filterLocations`. */
  lemma FilterStep(w: World, done: set<int>, d: int, filtered: seq<int>)
    requires d !in done
    requires multiset(filtered) == multiset(WildernessLocations(w, done))
    ensures OutsideWilderness(w, done + {d}) == OutsideWilderness(w, done) + (if w.inWilderness(d) then {} else {d})
    ensures w.inWilderness(d) ==> multiset(filtered + [d]) == multiset(WildernessLocations(w, done + {d}))
    ensures !w.inWilderness(d) ==> multiset(filtered) == multiset(WildernessLocations(w, done + {d}))
  {
    if w.inWilderness(d) {
      assert WildernessLocations(w, done + {d}) == WildernessLocations(w, done) + {d};
    } else {
      assert WildernessLocations(w, done + {d}) == WildernessLocations(w, done);
    }
  }

  /** The cached values are the client's values. */
  predicate CacheAgreesWith(client: ClientState, quests: map<nat, QuestState>, varbits: map<int, Int32>,
                            varps: map<int, Int32>) {
    && (forall q :: q in quests ==> quests[q] == client.questState(q))
    && (forall id :: id in varbits ==> varbits[id] == client.varbit(id))
    && (forall id :: id in varps ==> varps[id] == client.varp(id))
  }

  /** Caching a varbit read from the client keeps the caches in agreement with it. */
  lemma CachingVarbitAgrees(client: ClientState, quests: map<nat, QuestState>, varbits: map<int, Int32>,
                            varps: map<int, Int32>, id: int)
    requires CacheAgreesWith(client, quests, varbits, varps)
    ensures CacheAgreesWith(client, quests, varbits[id := client.varbit(id)], varps)
  {
  }

  /** The caches hold every quest and variable `t` asks about. */
  predicate Covers(quests: map<nat, QuestState>, varbits: map<int, Int32>, varps: map<int, Int32>, t: Transport) {
    t.quests <= quests.Keys
    && VarIds(Varbits(t.varRequirements)) <= varbits.Keys
    && VarIds(VarPlayers(t.varRequirements)) <= varps.Keys
  }

  /** Caches that agree with the client and cover `t` answer about `t` as the client does. */
  lemma CoveringCacheAgrees(client: ClientState, quests: map<nat, QuestState>, varbits: map<int, Int32>,
                            varps: map<int, Int32>, t: Transport)
    requires CacheAgreesWith(client, quests, varbits, varps)
    requires Covers(quests, varbits, varps, t)
    ensures AgreeOn(CachedLookups(quests, varbits, varps), LiveLookups(client), t)
  {
    forall v | v in t.varRequirements && v.IsVarbit()
      ensures MapLookup(varbits)(v.id) == Some(client.varbit(v.id))
    {
      assert v in Varbits(t.varRequirements);
      assert v.id in VarIds(Varbits(t.varRequirements));
    }
    forall v | v in t.varRequirements && v.IsVarPlayer()
      ensures MapLookup(varps)(v.id) == Some(client.varp(v.id))
    {
      assert v in VarPlayers(t.varRequirements);
      assert v.id in VarIds(VarPlayers(t.varRequirements));
    }
  }

  /** The item checks read one cached variable, the Lumbridge diary; caching it makes them live. */
  lemma ItemsOkReadsDiaryOnly(r: Rules, client: ClientState, quests: map<nat, QuestState>, varbits: map<int, Int32>,
                              varps: map<int, Int32>, t: Transport, checked: Checked)
    requires CacheAgreesWith(client, quests, varbits, varps)
    requires r.ids.lumbridgeEliteVarbit in varbits
    ensures ItemsOk(r, CachedLookups(quests, varbits, varps), t, checked) == ItemsOk(r, LiveLookups(client), t, checked)
  {
    assert ValueOr0(CachedLookups(quests, varbits, varps).varbit, r.ids.lumbridgeEliteVarbit)
        == ValueOr0(LiveLookups(client).varbit, r.ids.lumbridgeEliteVarbit);
  }

  /** The caches cover every transport of `ts`. */
  predicate CoversAll(quests: map<nat, QuestState>, varbits: map<int, Int32>, varps: map<int, Int32>, ts: set<Transport>) {
    forall t :: t in ts ==> Covers(quests, varbits, varps, t)
  }

  /** Coverage survives the caches growing and extends to one more covered transport. */
  lemma CoversAllGrows(quests: map<nat, QuestState>, varbits: map<int, Int32>, varps: map<int, Int32>,
                       quests': map<nat, QuestState>, varbits': map<int, Int32>, varps': map<int, Int32>,
                       ts: set<Transport>, t: Transport)
    requires CoversAll(quests, varbits, varps, ts)
    requires quests.Keys <= quests'.Keys && varbits.Keys <= varbits'.Keys && varps.Keys <= varps'.Keys
    requires Covers(quests', varbits', varps', t)
    ensures CoversAll(quests', varbits', varps', ts + {t})
  {
  }

  /** Considering one more transport adds it to the usable ones exactly when it passes both checks. */
  lemma UsableStep(r: Rules, l: Lookups, done: set<Transport>, t: Transport, checked: Checked, use: bool)
    requires |t.skillLevels| >= |r.levels|
    requires use == (Eligible(r, l, t) && ItemsOk(r, l, t, checked))
    ensures Usable(r, l, done + {t}, checked) == Usable(r, l, done, checked) + (if use then {t} else {})
  {
  }

  /** The caches cover every transport held under the keys of `keys`. */
  predicate CoversKeys(quests: map<nat, QuestState>, varbits: map<int, Int32>, varps: map<int, Int32>,
                       all: map<int, set<Transport>>, keys: set<int>) {
    forall k :: k in keys && k in all ==> CoversAll(quests, varbits, varps, all[k])
  }

  lemma CoversKeysGrows(quests: map<nat, QuestState>, varbits: map<int, Int32>, varps: map<int, Int32>,
                        quests': map<nat, QuestState>, varbits': map<int, Int32>, varps': map<int, Int32>,
                        all: map<int, set<Transport>>, keys: set<int>, point: int)
    requires CoversKeys(quests, varbits, varps, all, keys)
    requires quests.Keys <= quests'.Keys && varbits.Keys <= varbits'.Keys && varps.Keys <= varps'.Keys
    requires point in all && CoversAll(quests', varbits', varps', all[point])
    ensures CoversKeys(quests', varbits', varps', all, keys + {point})
  {
    forall k | k in keys + {point} && k in all
      ensures CoversAll(quests', varbits', varps', all[k])
    {
      if k != point {
        forall t | t in all[k]
          ensures Covers(quests', varbits', varps', t)
        {
          assert Covers(quests, varbits, varps, t);
        }
      }
    }
  }

  /** One more origin in the loop of `refreshTransports`. */
  lemma NonEmptyEntriesStep(m: map<int, set<Transport>>, undefined: int, keys: set<int>, point: int)
    requires point in m
    ensures NonEmptyEntries(m, undefined, keys + {point})
      == if point != undefined && m[point] != {} then NonEmptyEntries(m, undefined, keys)[point := m[point]]
         else NonEmptyEntries(m, undefined, keys)
  {
  }

  /** One more transport seen by the inner loop of the bank-visit refresh. */
  lemma FairyRingsAtStep(r: Rules, l: Lookups, seen: set<Transport>, t: Transport)
    requires |t.skillLevels| >= |r.levels|
    ensures FairyRingsAt(r, l, seen + {t})
      == FairyRingsAt(r, l, seen) + (if t.transportType == Some(FAIRY_RING) && Eligible(r, l, t) then {t} else {})
  {
  }

  /** One more origin seen by the outer loop of the bank-visit refresh. */
  lemma FairyRingAddsStep(r: Rules, l: Lookups, all: map<int, set<Transport>>, undefined: int, done: set<int>, point: int)
    requires point in all && point !in done
    ensures FairyRingAdds(r, l, all, undefined, done + {point})
      == if point == undefined then FairyRingAdds(r, l, all, undefined, done)
         else FairyRingAdds(r, l, all, undefined, done)[point := FairyRingsAt(r, l, all[point])]
  {
  }

  lemma AddAllNothing(m: map<int, set<Transport>>)
    ensures AddAll(m, map[]) == m
  {
    assert AddAll(m, map[]).Keys == m.Keys;
    forall k | k in m
      ensures AddAll(m, map[])[k] == m[k]
    {
      assert SetAt(map[], k) == {};
    }
  }

  /** Adding one transport at a key, as the bank-visit refresh does for each fairy ring. */
  lemma AddAtStep(m: map<int, set<Transport>>, k: int, s: set<Transport>, t: Transport)
    ensures AddAt(m, k, s + {t}) == AddAt(m, k, s)[k := SetAt(AddAt(m, k, s), k) + {t}]
  {
    var before := AddAt(m, k, s);
    assert SetAt(before, k) == SetAt(m, k) + s;
    assert SetAt(m, k) + (s + {t}) == SetAt(before, k) + {t};
    if s != {} {
      assert before[k := SetAt(before, k) + {t}] == m[k := SetAt(before, k) + {t}];
    }
  }

  /** Adding at a key not yet among the additions extends the additions by that key. */
  lemma AddAllAtNewKey(m: map<int, set<Transport>>, adds: map<int, set<Transport>>, k: int, s: set<Transport>)
    requires k !in adds
    ensures AddAt(AddAll(m, adds), k, s) == AddAll(m, adds[k := s])
  {
    var a := AddAll(m, adds);
    var left := AddAt(a, k, s);
    var adds' := adds[k := s];
    var right := AddAll(m, adds');
    forall j
      ensures j in left <==> j in right
    {
      if j != k {
        assert j in adds' <==> j in adds;
        if j in adds {
          assert adds'[j] == adds[j];
        }
      }
    }
    assert left.Keys == right.Keys;
    forall j | j in left
      ensures left[j] == right[j]
    {
      if j == k {
        assert SetAt(adds, k) == {};
        assert SetAt(a, k) == SetAt(m, k);
        assert SetAt(adds', k) == s;
      } else {
        assert SetAt(adds', j) == SetAt(adds, j);
      }
    }
  }

  /** A map whose sets are all non-empty is remapped once `remapPohTransports` has run. */
  lemma RemapPohIsRemapped(w: World, m: map<int, set<Transport>>)
    requires forall k :: k in m ==> m[k] != {}
    ensures Remapped(w, RemapPoh(w, m))
  {
    RemapPohMovesHouseTransports(w, m);
    forall k | k in RemapPoh(w, m)
      ensures RemapPoh(w, m)[k] != {}
    {
      RemapPohKeepsNonEmpty(w, m, k);
    }
  }

  lemma RemapPohKeepsNonEmpty(w: World, m: map<int, set<Transport>>, k: int)
    requires forall k :: k in m ==> m[k] != {}
    requires k in RemapPoh(w, m)
    ensures RemapPoh(w, m)[k] != {}
  {
    var after := RemapPoh(w, m);
    var moved := HouseTransports(w, m);
    if k == PohLanding(w) && moved != {} {
      var t := Pick(moved);
      assert after[k] == SetAt(map j | j in m && !InPoh(w, j) :: m[j], k) + moved;
      MemberMeansNonEmpty(after[k], t);
    } else {
      assert k in m && !InPoh(w, k) && after[k] == m[k];
    }
  }

  /** Adding keeps every set non-empty. */
  lemma AddAllKeepsNonEmpty(m: map<int, set<Transport>>, adds: map<int, set<Transport>>)
    requires forall k :: k in m ==> m[k] != {}
    ensures forall k :: k in AddAll(m, adds) ==> AddAll(m, adds)[k] != {}
  {
    forall k | k in AddAll(m, adds)
      ensures AddAll(m, adds)[k] != {}
    {
      if k in m {
        NonEmptyHasMember(m[k]);
        var t :| t in m[k];
        MemberMeansNonEmpty(AddAll(m, adds)[k], t);
      } else {
        NonEmptyHasMember(adds[k]);
        var t :| t in adds[k];
        MemberMeansNonEmpty(AddAll(m, adds)[k], t);
      }
    }
  }

  /** The transports held under the keys of `keys` that lie inside the house. */
  ghost function HouseTransportsAmong(w: World, m: map<int, set<Transport>>, keys: set<int>): set<Transport> {
    set k, t | k in keys && k in m && InPoh(w, k) && t in m[k] :: t
  }

  lemma HouseTransportsAmongStep(w: World, m: map<int, set<Transport>>, keys: set<int>, k: int)
    requires k in m
    ensures HouseTransportsAmong(w, m, keys + {k})
      == HouseTransportsAmong(w, m, keys) + (if InPoh(w, k) then m[k] else {})
  {
    var before := HouseTransportsAmong(w, m, keys);
    var after := HouseTransportsAmong(w, m, keys + {k});
    forall t | t in after
      ensures t in before + (if InPoh(w, k) then m[k] else {})
    {
      var j :| j in keys + {k} && j in m && InPoh(w, j) && t in m[j];
      if j != k {
        assert t in before;
      }
    }
  }

  /** `m` without the keys of `keys`. */
  function WithoutKeys(m: map<int, set<Transport>>, keys: set<int>): map<int, set<Transport>> {
    map k | k in m && k !in keys :: m[k]
  }

  class PathfinderConfig {
    const world: World
    const ids: GameIds
    const client: ClientState
    /** The settings `refresh` copies, after the plugin's overrides. */
    const config: Options
    /** The number of level slots: one per skill, then total level, combat level and quest points. */
    const slots: nat
    const typeConfig: TransportTypeConfig
    /** Every transport by origin; teleports, which start wherever the player stands, are under `world.undefined`. */
    const allTransports: map<int, set<Transport>>
    const allDestinations: map<string, set<int>>
    const filteredDestinations: map<string, set<int>>

    /** The transports the search may take, by origin. */
    var transports: map<int, set<Transport>>
    var usableTeleports: set<Transport>
    /** Either `allDestinations` or `filteredDestinations`. */
    var destinations: map<string, set<int>>
    /** Targets dropped for lying in the wilderness, kept so that they can be revived. */
    var filteredTargets: seq<int>
    var options: Options
    var bankVisited: bool
    var levels: seq<int>
    var questStates: map<nat, QuestState>
    var varbitValues: map<int, Int32>
    var varPlayerValues: map<int, Int32>
    /** The bank's items, once the bank has been seen. */
    var bank: Option<seq<Item>>

    ghost predicate CacheAgrees()
      reads this`questStates, this`varbitValues, this`varPlayerValues
    {
      CacheAgreesWith(client, questStates, varbitValues, varPlayerValues)
    }

    ghost predicate Valid()
      reads this`levels, this`questStates, this`varbitValues, this`varPlayerValues
    {
      && |levels| == slots
      && |client.boostedLevels| == slots
      && (forall k, t :: k in allTransports && t in allTransports[k] ==> |t.skillLevels| == slots)
      && CacheAgrees()
    }

    /** Everything `useTransport` and `hasRequiredItems` read besides the cached quests and variables. */
    function Snapshot(): Rules
      reads this`options, this`levels, this`bank, this`bankVisited, typeConfig`enabledStates,
        typeConfig`teleportationItemSetting
    {
      Rules(world, ids, options, typeConfig.enabledStates, typeConfig.teleportationItemSetting, levels,
        client.nowMinutes, client.inventory, client.equipment, PouchSlots(client, ids), bank, bankVisited)
    }

    /** The cached quests and variables. */
    function Cached(): Lookups
      reads this`questStates, this`varbitValues, this`varPlayerValues
    {
      CachedLookups(questStates, varbitValues, varPlayerValues)
    }

    constructor (world: World, ids: GameIds, client: ClientState, config: Options, settings: Settings, slots: nat,
                 allTransports: map<int, set<Transport>>, allDestinations: map<string, set<int>>)
      requires |client.boostedLevels| == slots
      requires forall k, t :: k in allTransports && t in allTransports[k] ==> |t.skillLevels| == slots
      ensures Valid()
      ensures this.world == world && this.ids == ids && this.client == client && this.config == config
      ensures this.slots == slots && this.allTransports == allTransports && this.allDestinations == allDestinations
      ensures fresh(typeConfig) && typeConfig.settings == settings && typeConfig.Refreshed()
      ensures typeConfig.teleportationItemSetting == settings.useTeleportationItems
      ensures filteredDestinations == FilteredDestinations(world, allDestinations)
      ensures destinations == allDestinations
      ensures transports == map[] && usableTeleports == {} && filteredTargets == []
      ensures levels == seq(slots, _ => 0) && !bankVisited && bank.None?
      ensures questStates == map[] && varbitValues == map[] && varPlayerValues == map[]
      ensures options == Options(false, false, false, false, false, false, false, None, 0, 0)
    {
      this.world := world;
      this.ids := ids;
      this.client := client;
      this.config := config;
      this.slots := slots;
      this.allTransports := allTransports;
      this.allDestinations := allDestinations;
      typeConfig := new TransportTypeConfig(settings);
      var filtered := FilterDestinations(world, allDestinations);
      filteredDestinations := filtered;
      destinations := allDestinations;
      transports := map[];
      usableTeleports := {};
      filteredTargets := [];
      options := Options(false, false, false, false, false, false, false, None, 0, 0);
      bankVisited := false;
      levels := seq(slots, _ => 0);
      questStates := map[];
      varbitValues := map[];
      varPlayerValues := map[];
      bank := None;
    }

    /** `hasRequiredItems(transportItems, …)` on the containers `checked` names. */
    method HasRequiredItemsIn(items: Option<TransportItems>, checked: Checked) returns (ok: bool)
      ensures ok == ItemsAvailable(Snapshot(), items, checked)
    {
      ok := HasRequiredItems(items, ContainersFor(Snapshot(), checked), ids.runePouches, ids.currencies,
                             options.currencyThreshold);
    }

    /** `hasRequiredItems(transport, …)`. */
    method HasRequiredItemsFor(t: Transport, checked: Checked) returns (ok: bool)
      ensures ok == ItemsOk(Snapshot(), Cached(), t, checked)
    {
      var setting := typeConfig.teleportationItemSetting;
      if IsTeleportItemType(t.transportType) {
        if TeleportItemsUnchecked(setting) {
          return true;
        }
        if setting == TeleportationItem.NONE {
          return false;
        }
      }
      if t.transportType == Some(FAIRY_RING) {
        var diary := if ids.lumbridgeEliteVarbit in varbitValues then varbitValues[ids.lumbridgeEliteVarbit] else 0;
        if diary != 1 {
          var hasStaff := HasRequiredItemsIn(Some(DramenStaff(ids)), checked);
          if !hasStaff {
            return false;
          }
        }
      }
      ok := HasRequiredItemsIn(t.itemRequirements, checked);
    }

    /** Caches the quest states and variable values `t` asks about, read from the client. */
    method CacheRequirements(t: Transport)
      modifies this`questStates, this`varbitValues, this`varPlayerValues
      requires CacheAgrees()
      ensures CacheAgrees() && Covers(questStates, varbitValues, varPlayerValues, t)
      ensures questStates.Keys == old(questStates.Keys) + t.quests
      ensures varbitValues.Keys == old(varbitValues.Keys) + VarIds(Varbits(t.varRequirements))
      ensures varPlayerValues.Keys == old(varPlayerValues.Keys) + VarIds(VarPlayers(t.varRequirements))
    {
      var quests := t.quests;
      while quests != {}
        invariant quests <= t.quests
        invariant CacheAgrees()
        invariant questStates.Keys == old(questStates.Keys) + (t.quests - quests)
        invariant varbitValues == old(varbitValues) && varPlayerValues == old(varPlayerValues)
        decreases quests
      {
        ghost var someQuest := Pick(quests);
        var quest :| quest in quests;
        questStates := questStates[quest := client.questState(quest)];
        quests := quests - {quest};
      }
      assert t.quests - quests == t.quests;
      var reqs := t.varRequirements;
      while reqs != {}
        invariant reqs <= t.varRequirements
        invariant CacheAgrees()
        invariant questStates.Keys == old(questStates.Keys) + t.quests
        invariant varbitValues.Keys == old(varbitValues.Keys) + VarIds(Varbits(t.varRequirements - reqs))
        invariant varPlayerValues.Keys == old(varPlayerValues.Keys) + VarIds(VarPlayers(t.varRequirements - reqs))
        decreases reqs
      {
        ghost var someRequirement := Pick(reqs);
        var req :| req in reqs;
        ghost var done := t.varRequirements - reqs;
        KindIsExclusive(req);
        if req.IsVarbit() {
          varbitValues := varbitValues[req.id := client.varbit(req.id)];
          assert Varbits(done + {req}) == Varbits(done) + {req};
          assert VarPlayers(done + {req}) == VarPlayers(done);
        } else {
          varPlayerValues := varPlayerValues[req.id := client.varp(req.id)];
          assert Varbits(done + {req}) == Varbits(done);
          assert VarPlayers(done + {req}) == VarPlayers(done) + {req};
        }
        reqs := reqs - {req};
        assert t.varRequirements - reqs == done + {req};
      }
      assert t.varRequirements - reqs == t.varRequirements;
    }

    /**
     * The body of the inner loop of `refreshTransports`: caches what `t` asks about, then asks
     * `useTransport` and `hasRequiredItems`.
     */
    method ConsiderTransport(t: Transport) returns (use: bool)
      modifies this`questStates, this`varbitValues, this`varPlayerValues
      requires Valid() && |t.skillLevels| == slots && ids.lumbridgeEliteVarbit in varbitValues
      ensures Valid() && ids.lumbridgeEliteVarbit in varbitValues
      ensures use == (Eligible(Snapshot(), LiveLookups(client), t) && ItemsOk(Snapshot(), LiveLookups(client), t, EVERY_CONTAINER))
      ensures Covers(questStates, varbitValues, varPlayerValues, t)
      ensures questStates.Keys == old(questStates.Keys) + t.quests
      ensures varbitValues.Keys == old(varbitValues.Keys) + VarIds(Varbits(t.varRequirements))
      ensures varPlayerValues.Keys == old(varPlayerValues.Keys) + VarIds(VarPlayers(t.varRequirements))
    {
      CacheRequirements(t);
      CoveringCacheAgrees(client, questStates, varbitValues, varPlayerValues, t);
      EligibleReadsOwnEntries(Snapshot(), Cached(), LiveLookups(client), t);
      ItemsOkReadsDiaryOnly(Snapshot(), client, questStates, varbitValues, varPlayerValues, t, EVERY_CONTAINER);
      use := UseTransport(Snapshot(), Cached(), t);
      if use {
        use := HasRequiredItemsFor(t, EVERY_CONTAINER);
      }
    }

    /** One entry of the loop in `refreshTransports`: the transports at `point` that may be used. */
    method ProcessOrigin(point: int, ghost r: Rules) returns (usable: set<Transport>)
      modifies this`questStates, this`varbitValues, this`varPlayerValues
      requires Valid() && point in allTransports && ids.lumbridgeEliteVarbit in varbitValues && Snapshot() == r
      ensures Valid() && ids.lumbridgeEliteVarbit in varbitValues && Snapshot() == r
      ensures usable == Usable(r, LiveLookups(client), allTransports[point], EVERY_CONTAINER)
      ensures CoversAll(questStates, varbitValues, varPlayerValues, allTransports[point])
      ensures old(questStates.Keys) <= questStates.Keys && old(varbitValues.Keys) <= varbitValues.Keys
      ensures old(varPlayerValues.Keys) <= varPlayerValues.Keys
    {
      usable := {};
      var pending := allTransports[point];
      ghost var live := LiveLookups(client);
      while pending != {}
        invariant pending <= allTransports[point]
        invariant Valid() && ids.lumbridgeEliteVarbit in varbitValues
        invariant Snapshot() == r
        invariant usable == Usable(r, live, allTransports[point] - pending, EVERY_CONTAINER)
        invariant CoversAll(questStates, varbitValues, varPlayerValues, allTransports[point] - pending)
        invariant old(questStates.Keys) <= questStates.Keys && old(varbitValues.Keys) <= varbitValues.Keys
        invariant old(varPlayerValues.Keys) <= varPlayerValues.Keys
        decreases pending
      {
        ghost var someTransport := Pick(pending);
        var t :| t in pending;
        ghost var done := allTransports[point] - pending;
        ghost var quests, varbits, varps := questStates, varbitValues, varPlayerValues;
        var use := ConsiderTransport(t);
        CoversAllGrows(quests, varbits, varps, questStates, varbitValues, varPlayerValues, done, t);
        UsableStep(r, live, done, t, EVERY_CONTAINER, use);
        if use {
          usable := usable + {t};
        }
        TakeOne(allTransports[point], pending, t);
        pending := pending - {t};
      }
      assert allTransports[point] - pending == allTransports[point];
    }

    /** `hasStaffInBank`: a Dramen or Lunar staff with a positive quantity is in the bank. */
    method HasStaffInBank() returns (found: bool)
      ensures found == StaffInBank(bank, ids.dramenStaves)
    {
      if bank.None? {
        return false;
      }
      var items := bank.value;
      var staves := ids.dramenStaves;
      for i := 0 to |staves|
        invariant forall i', j :: 0 <= i' < i && 0 <= j < |items| ==> !(items[j].id == staves[i'] && items[j].quantity > 0)
      {
        for j := 0 to |items|
          invariant forall j' :: 0 <= j' < j ==> !(items[j'].id == staves[i] && items[j'].quantity > 0)
        {
          if items[j].id == staves[i] && items[j].quantity > 0 {
            return true;
          }
        }
      }
      return false;
    }

    /** The first loop of `remapPohTransports`: the transports leaving the house and the house origins. */
    method FindHouseTransports() returns (pohTransports: set<Transport>, pohOriginsToRemove: set<int>)
      ensures pohOriginsToRemove == set k | k in transports && InPoh(world, k)
      ensures pohTransports == HouseTransports(world, transports)
    {
      pohTransports, pohOriginsToRemove := {}, {};
      var pending := transports.Keys;
      while pending != {}
        invariant pending <= transports.Keys
        invariant pohOriginsToRemove == set k | k in transports.Keys - pending && InPoh(world, k)
        invariant pohTransports == HouseTransportsAmong(world, transports, transports.Keys - pending)
        decreases pending
      {
        ghost var someOrigin := Pick(pending);
        var origin :| origin in pending;
        HouseTransportsAmongStep(world, transports, transports.Keys - pending, origin);
        if world.insidePoh(world.unpackX(origin), world.unpackY(origin)) {
          pohTransports := pohTransports + transports[origin];
          pohOriginsToRemove := pohOriginsToRemove + {origin};
        }
        assert transports.Keys - (pending - {origin}) == (transports.Keys - pending) + {origin};
        pending := pending - {origin};
      }
      assert transports.Keys - pending == transports.Keys;
    }

    /** `remapPohTransports`: every transport whose origin is inside the house moves to the landing tile. */
    method RemapPohTransports()
      modifies this`transports
      ensures transports == RemapPoh(world, old(transports))
    {
      var pohLanding := world.pack(1923, 5709, 0);
      var pohTransports, pohOriginsToRemove := FindHouseTransports();
      var removing := pohOriginsToRemove;
      while removing != {}
        invariant removing <= pohOriginsToRemove
        invariant transports == WithoutKeys(old(transports), pohOriginsToRemove - removing)
        decreases removing
      {
        ghost var someOrigin := Pick(removing);
        var origin :| origin in removing;
        ghost var removed := pohOriginsToRemove - removing;
        transports := transports - {origin};
        removing := removing - {origin};
        assert pohOriginsToRemove - removing == removed + {origin};
      }
      assert pohOriginsToRemove - removing == pohOriginsToRemove;
      assert transports == map k | k in old(transports) && !InPoh(world, k) :: old(transports)[k];
      if pohTransports != {} {
        var existing := if pohLanding in transports then transports[pohLanding] else {};
        assert existing == SetAt(transports, PohLanding(world));
        transports := transports[pohLanding := existing + pohTransports];
      }
    }

    /** `refreshTeleports`: the usable teleports allowed at `wildernessLevel` become transports from `location`. */
    method RefreshTeleports(location: int, wildernessLevel: int)
      modifies this`transports
      ensures transports == AddAt(old(transports), location, WildernessTeleports(usableTeleports, wildernessLevel))
    {
      var usableWildyTeleports: set<Transport> := {};
      var pending := usableTeleports;
      while pending != {}
        invariant pending <= usableTeleports
        invariant transports == old(transports)
        invariant usableWildyTeleports == WildernessTeleports(usableTeleports - pending, wildernessLevel)
        decreases pending
      {
        ghost var someTeleport := Pick(pending);
        var teleport :| teleport in pending;
        if wildernessLevel <= teleport.maxWildernessLevel {
          usableWildyTeleports := usableWildyTeleports + {teleport};
        }
        pending := pending - {teleport};
      }
      assert usableTeleports - pending == usableTeleports;
      if usableWildyTeleports != {} {
        var oldTransports := if location in transports then transports[location] else {};
        assert oldTransports == SetAt(transports, location);
        transports := transports[location := oldTransports + usableWildyTeleports];
      }
    }
      /** `hasRequiredItems(DRAMEN_STAFF, true, true, false, false)`: a staff in the inventory or the equipment. */
    method HasStaffOnPlayer() returns (found: bool)
      ensures found == StaffOnPlayer(client, ids, options)
    {
      found := HasRequiredItemsIn(Some(DramenStaff(ids)), ON_PLAYER);
      StaffOnPlayerIsAvailable(Snapshot(), client);
    }

    /** The head of `refreshTransports`: caches the two varbits the fairy-ring checks read. */
    method CacheFairyRingVarbits()
      modifies this`varbitValues
      requires CacheAgrees()
      ensures CacheAgrees()
      ensures varbitValues == old(varbitValues)[ids.fairyTaleIIVarbit := client.varbit(ids.fairyTaleIIVarbit)]
        [ids.lumbridgeEliteVarbit := client.varbit(ids.lumbridgeEliteVarbit)]
    {
      CachingVarbitAgrees(client, questStates, varbitValues, varPlayerValues, ids.fairyTaleIIVarbit);
      varbitValues := varbitValues[ids.fairyTaleIIVarbit := client.varbit(ids.fairyTaleIIVarbit)];
      CachingVarbitAgrees(client, questStates, varbitValues, varPlayerValues, ids.lumbridgeEliteVarbit);
      varbitValues := varbitValues[ids.lumbridgeEliteVarbit := client.varbit(ids.lumbridgeEliteVarbit)];
    }

    /**
     * The gating in `refreshTransports`: disables fairy rings without the quest or a way to open
     * them, and the three quest-gated networks without their quest.
     */
    method GateTypes()
      modifies typeConfig
      requires ids.fairyTaleIIVarbit in varbitValues && ids.lumbridgeEliteVarbit in varbitValues
      requires varbitValues[ids.fairyTaleIIVarbit] == client.varbit(ids.fairyTaleIIVarbit)
      requires varbitValues[ids.lumbridgeEliteVarbit] == client.varbit(ids.lumbridgeEliteVarbit)
      ensures typeConfig.enabledStates == Gated(old(typeConfig.enabledStates), client, ids, options)
      ensures unchanged(typeConfig`costThresholds, typeConfig`teleportationItemSetting)
    {
      ghost var e0 := typeConfig.enabledStates;
      GateFairyRings();
      ghost var e1 := typeConfig.enabledStates;
      typeConfig.DisableUnless(GNOME_GLIDER, client.questState(ids.theGrandTree) == FINISHED);
      ghost var e2 := typeConfig.enabledStates;
      assert e2 == DisabledUnless(e1, GNOME_GLIDER, TypeGate(client, ids, options, GNOME_GLIDER));
      typeConfig.DisableUnless(MAGIC_MUSHTREE, client.questState(ids.boneVoyage) == FINISHED);
      ghost var e3 := typeConfig.enabledStates;
      assert e3 == DisabledUnless(e2, MAGIC_MUSHTREE, TypeGate(client, ids, options, MAGIC_MUSHTREE));
      typeConfig.DisableUnless(SPIRIT_TREE, client.questState(ids.treeGnomeVillage) == FINISHED);
      assert typeConfig.enabledStates == DisabledUnless(e3, SPIRIT_TREE, TypeGate(client, ids, options, SPIRIT_TREE));
    }

    /**
     * `filterLocations`: when avoiding the wilderness, moves the wilderness locations to the filtered
     * targets, and gives all the filtered targets back if nothing else is left; otherwise, when
     * allowed, gives the filtered targets back.
     */
    method FilterLocations(locations: set<int>, canReviveFiltered: bool) returns (result: set<int>)
      modifies this`filteredTargets
      ensures options.avoidWilderness && OutsideWilderness(world, locations) != {} ==>
        (result == OutsideWilderness(world, locations)
         && multiset(filteredTargets) == multiset(old(filteredTargets)) + multiset(WildernessLocations(world, locations)))
      ensures options.avoidWilderness && OutsideWilderness(world, locations) == {} ==>
        (result == locations + Targets(old(filteredTargets)) && filteredTargets == [])
      ensures !options.avoidWilderness && canReviveFiltered ==>
        (result == locations + Targets(old(filteredTargets)) && filteredTargets == [])
      ensures !options.avoidWilderness && !canReviveFiltered ==>
        (result == locations && filteredTargets == old(filteredTargets))
      ensures result + Targets(filteredTargets) == locations + Targets(old(filteredTargets))
      ensures locations != {} ==> result != {}
    {
      if options.avoidWilderness {
        var kept := SetAsideWilderness(locations);
        WildernessSplits(world, locations);
        TargetsOfMultiset(old(filteredTargets), filteredTargets, WildernessLocations(world, locations));
        if kept == {} {
          result := kept + Targets(filteredTargets);
          filteredTargets := [];
        } else {
          result := kept;
        }
      } else if canReviveFiltered {
        result := locations + Targets(filteredTargets);
        filteredTargets := [];
      } else {
        result := locations;
      }
    }

    /** The `removeIf` of `filterLocations`: keeps the locations outside the wilderness and files the others. */
    method SetAsideWilderness(locations: set<int>) returns (kept: set<int>)
      modifies this`filteredTargets
      ensures kept == OutsideWilderness(world, locations)
      ensures multiset(filteredTargets) == multiset(old(filteredTargets)) + multiset(WildernessLocations(world, locations))
    {
      kept := {};
      var pending := locations;
      ghost var added: seq<int> := [];
      while pending != {}
        invariant pending <= locations
        invariant kept == OutsideWilderness(world, locations - pending)
        invariant filteredTargets == old(filteredTargets) + added
        invariant multiset(added) == multiset(WildernessLocations(world, locations - pending))
        decreases pending
      {
        ghost var someLocation := Pick(pending);
        var location :| location in pending;
        FilterStep(world, locations - pending, location, added);
        if world.inWilderness(location) {
          filteredTargets := filteredTargets + [location];
          added := added + [location];
        } else {
          kept := kept + {location};
        }
        TakeOne(locations, pending, location);
        pending := pending - {location};
      }
      assert locations - pending == locations;
    }

    /** `getAdditionalTransportCost`: consumable teleport items have their own setting, other transports their type's cost. */
    function AdditionalTransportCost(t: Transport): (cost: int)
      reads this`options, typeConfig
    {
      if t.isConsumable && t.transportType == Some(TELEPORTATION_ITEM) then options.costConsumableTeleportationItems
      else if t.transportType.Some? then typeConfig.GetCost(t.transportType.value)
      else 0
    }

    /**
     * With the type flags refreshed, the extra cost of a transport is the configured cost of its
     * type, except for consumable teleport items, which have a setting of their own; an untyped
     * transport costs nothing extra.
     */
    lemma AdditionalCostFollowsSettings(t: Transport)
      requires typeConfig.Refreshed()
      ensures t.isConsumable && t.transportType == Some(TELEPORTATION_ITEM) ==>
        AdditionalTransportCost(t) == options.costConsumableTeleportationItems
      ensures !(t.isConsumable && t.transportType == Some(TELEPORTATION_ITEM)) && t.transportType.Some? ==>
        AdditionalTransportCost(t) == CostThreshold(typeConfig.settings, t.transportType.value)
      ensures t.transportType.None? ==> AdditionalTransportCost(t) == 0
    {
      if t.transportType.Some? {
        assert typeConfig.GetCost(t.transportType.value) == CostThreshold(typeConfig.settings, t.transportType.value);
      }
    }

    /** The first gate: fairy rings need the quest and either the diary or a staff on the player. */
    method GateFairyRings()
      modifies typeConfig
      requires ids.fairyTaleIIVarbit in varbitValues && ids.lumbridgeEliteVarbit in varbitValues
      requires varbitValues[ids.fairyTaleIIVarbit] == client.varbit(ids.fairyTaleIIVarbit)
      requires varbitValues[ids.lumbridgeEliteVarbit] == client.varbit(ids.lumbridgeEliteVarbit)
      ensures typeConfig.enabledStates
        == DisabledUnless(old(typeConfig.enabledStates), FAIRY_RING, TypeGate(client, ids, options, FAIRY_RING))
      ensures unchanged(typeConfig`costThresholds, typeConfig`teleportationItemSetting)
    {
      var hasFairyRingQuest := varbitValues[ids.fairyTaleIIVarbit] > 39;
      var hasLumbridgeDiary := varbitValues[ids.lumbridgeEliteVarbit] == 1;
      var hasStaffInInventoryOrEquipment := HasStaffOnPlayer();
      var fairyRingsOpen := hasFairyRingQuest && (hasLumbridgeDiary || hasStaffInInventoryOrEquipment);
      assert fairyRingsOpen == TypeGate(client, ids, options, FAIRY_RING);
      typeConfig.DisableUnless(FAIRY_RING, fairyRingsOpen);
    }

    /**
     * The origins in `done` are filed: the non-empty usable sets of the other origins under their
     * keys, and the teleport origin's set as the usable teleports.
     */
    ghost predicate Stored(byOrigin: map<int, set<Transport>>, done: set<int>)
      reads this`transports, this`usableTeleports
    {
      && transports == NonEmptyEntries(byOrigin, world.undefined, done)
      && usableTeleports == if world.undefined in done && world.undefined in byOrigin then byOrigin[world.undefined] else {}
    }

    /**
     * The state of the loop of `refreshTransports` once the origins in `done` are filed: the caches
     * agree with the client, cover every transport of those origins, and the rules are still `r`.
     */
    ghost predicate Collecting(r: Rules, byOrigin: map<int, set<Transport>>, done: set<int>)
      reads this`levels, this`questStates, this`varbitValues, this`varPlayerValues, this`transports,
        this`usableTeleports, this`options, this`bank, this`bankVisited, typeConfig`enabledStates,
        typeConfig`teleportationItemSetting
    {
      && Valid() && ids.lumbridgeEliteVarbit in varbitValues && ids.fairyTaleIIVarbit in varbitValues
      && Snapshot() == r
      && Stored(byOrigin, done)
      && CoversKeys(questStates, varbitValues, varPlayerValues, allTransports, done)
    }

    /** One pass of the loop of `refreshTransports`: files the usable transports of `point`. */
    method CollectOrigin(point: int, ghost r: Rules, ghost byOrigin: map<int, set<Transport>>, ghost done: set<int>)
      modifies this`transports, this`usableTeleports, this`questStates, this`varbitValues, this`varPlayerValues
      requires point in allTransports && point !in done && done <= allTransports.Keys
      requires byOrigin.Keys == allTransports.Keys
      requires byOrigin[point] == Usable(r, LiveLookups(client), allTransports[point], EVERY_CONTAINER)
      requires Collecting(r, byOrigin, done)
      ensures Collecting(r, byOrigin, done + {point})
    {
      ghost var quests, varbits, varps := questStates, varbitValues, varPlayerValues;
      var usable := ProcessOrigin(point, r);
      CoversKeysGrows(quests, varbits, varps, questStates, varbitValues, varPlayerValues, allTransports, done, point);
      StoreOrigin(point, usable, byOrigin, done);
    }

    /** Files the usable transports of `point`: teleports go to the teleport set, others under their origin. */
    method StoreOrigin(point: int, usable: set<Transport>, ghost byOrigin: map<int, set<Transport>>, ghost done: set<int>)
      modifies this`transports, this`usableTeleports
      requires point in byOrigin && point !in done && done <= byOrigin.Keys && usable == byOrigin[point]
      requires Stored(byOrigin, done)
      ensures Stored(byOrigin, done + {point})
    {
      NonEmptyEntriesStep(byOrigin, world.undefined, done, point);
      if point == world.undefined {
        usableTeleports := usableTeleports + usable;
      } else if usable != {} {
        transports := transports[point := usable];
      }
    }

    /** The loop of `refreshTransports`: rebuilds the usable transports and teleports from every origin. */
    method CollectUsable()
      modifies this`transports, this`usableTeleports, this`questStates, this`varbitValues, this`varPlayerValues
      requires Valid() && ids.lumbridgeEliteVarbit in varbitValues && ids.fairyTaleIIVarbit in varbitValues
      ensures Valid() && ids.lumbridgeEliteVarbit in varbitValues && ids.fairyTaleIIVarbit in varbitValues
      ensures transports == UsableMap(Snapshot(), LiveLookups(client), allTransports, world.undefined, allTransports.Keys)
      ensures usableTeleports == UsableTeleports(Snapshot(), LiveLookups(client), allTransports, world.undefined, EVERY_CONTAINER)
      ensures CoversKeys(questStates, varbitValues, varPlayerValues, allTransports, allTransports.Keys)
    {
      transports := map[];
      usableTeleports := {};
      var pending := allTransports.Keys;
      ghost var r := Snapshot();
      ghost var byOrigin := UsableByOrigin(r, LiveLookups(client), allTransports);
      while pending != {}
        invariant pending <= allTransports.Keys
        invariant Collecting(r, byOrigin, allTransports.Keys - pending)
        decreases pending
      {
        ghost var somePoint := Pick(pending);
        var point :| point in pending;
        ghost var done := allTransports.Keys - pending;
        CollectOrigin(point, r, byOrigin, done);
        TakeOne(allTransports.Keys, pending, point);
        pending := pending - {point};
      }
      assert allTransports.Keys - pending == allTransports.Keys;
    }

    /** `refreshTransports`, run on the client thread. */
    method RefreshTransports()
      modifies this`transports, this`usableTeleports, this`questStates, this`varbitValues, this`varPlayerValues, typeConfig
      requires Valid()
      ensures Valid()
      ensures typeConfig.enabledStates == Gated(old(typeConfig.enabledStates), client, ids, options)
      ensures unchanged(typeConfig`costThresholds, typeConfig`teleportationItemSetting)
      ensures transports == RemapPoh(world, UsableMap(Snapshot(), LiveLookups(client), allTransports, world.undefined, allTransports.Keys))
      ensures usableTeleports == UsableTeleports(Snapshot(), LiveLookups(client), allTransports, world.undefined, EVERY_CONTAINER)
      ensures Remapped(world, transports)
      ensures ids.fairyTaleIIVarbit in varbitValues && ids.lumbridgeEliteVarbit in varbitValues
      ensures CoversKeys(questStates, varbitValues, varPlayerValues, allTransports, allTransports.Keys)
    {
      CacheFairyRingVarbits();
      GateTypes();
      CollectUsable();
      ghost var usable := transports;
      RemapPohTransports();
      RemapPohIsRemapped(world, usable);
    }

    /** `refreshUsableTeleports`: adds the teleports whose items are now available from the bank. */
    method RefreshUsableTeleports()
      modifies this`usableTeleports
      requires Valid()
      ensures usableTeleports
        == old(usableTeleports) + UsableTeleports(Snapshot(), Cached(), allTransports, world.undefined, BANK_ONLY)
    {
      if world.undefined in allTransports {
        var pending := allTransports[world.undefined];
        ghost var r := Snapshot();
        while pending != {}
          invariant pending <= allTransports[world.undefined]
          invariant Valid() && Snapshot() == r
          invariant usableTeleports
            == old(usableTeleports) + Usable(r, Cached(), allTransports[world.undefined] - pending, BANK_ONLY)
          decreases pending
        {
          ghost var someTransport := Pick(pending);
          var t :| t in pending;
          ghost var done := allTransports[world.undefined] - pending;
          var use := Eligible(Snapshot(), Cached(), t);
          if use {
            use := HasRequiredItemsFor(t, BANK_ONLY);
          }
          UsableStep(r, Cached(), done, t, BANK_ONLY, use);
          if use {
            usableTeleports := usableTeleports + {t};
          }
          TakeOne(allTransports[world.undefined], pending, t);
          pending := pending - {t};
        }
        assert allTransports[world.undefined] - pending == allTransports[world.undefined];
      }
    }

    /** The inner loop of the bank-visit refresh: adds the fairy rings at `point` that pass `useTransport`. */
    method AddFairyRingsAt(point: int)
      modifies this`transports
      requires Valid() && point in allTransports
      ensures transports == AddAt(old(transports), point, FairyRingsAt(Snapshot(), Cached(), allTransports[point]))
    {
      var r := Snapshot();
      var l := Cached();
      var rest := allTransports[point];
      ghost var added: set<Transport> := {};
      assert AddAt(transports, point, added) == transports;
      while rest != {}
        invariant rest <= allTransports[point]
        invariant forall t :: t in allTransports[point] ==> |t.skillLevels| >= |r.levels|
        invariant added == FairyRingsAt(r, l, allTransports[point] - rest)
        invariant transports == AddAt(old(transports), point, added)
        decreases rest
      {
        ghost var someTransport := Pick(rest);
        var t :| t in rest;
        ghost var seen := allTransports[point] - rest;
        FairyRingsAtStep(r, l, seen, t);
        if t.transportType == Some(FAIRY_RING) && Eligible(r, l, t) {
          AddAtStep(old(transports), point, added, t);
          var existing := if point in transports then transports[point] else {};
          transports := transports[point := existing + {t}];
          added := added + {t};
        }
        rest := rest - {t};
        assert allTransports[point] - rest == seen + {t};
      }
      assert allTransports[point] - rest == allTransports[point];
    }

    /** The loop of the bank-visit refresh: adds every fairy ring away from `world.undefined` that passes `useTransport`. */
    method AddFairyRings()
      modifies this`transports
      requires Valid()
      ensures transports
        == AddAll(old(transports), FairyRingAdds(Snapshot(), Cached(), allTransports, world.undefined, allTransports.Keys))
    {
      ghost var r := Snapshot();
      ghost var l := Cached();
      var pending := allTransports.Keys;
      assert FairyRingAdds(r, l, allTransports, world.undefined, allTransports.Keys - pending) == map[];
      AddAllNothing(transports);
      while pending != {}
        invariant pending <= allTransports.Keys
        invariant Valid() && Snapshot() == r && Cached() == l
        invariant transports
          == AddAll(old(transports), FairyRingAdds(r, l, allTransports, world.undefined, allTransports.Keys - pending))
        decreases pending
      {
        ghost var somePoint := Pick(pending);
        var point :| point in pending;
        ghost var done := allTransports.Keys - pending;
        ghost var adds := FairyRingAdds(r, l, allTransports, world.undefined, done);
        FairyRingAddsStep(r, l, allTransports, world.undefined, done, point);
        if point != world.undefined {
          AddFairyRingsAt(point);
          AddAllAtNewKey(old(transports), adds, point, FairyRingsAt(r, l, allTransports[point]));
        }
        TakeOne(allTransports.Keys, pending, point);
        pending := pending - {point};
      }
      assert allTransports.Keys - pending == allTransports.Keys;
    }

    /**
     * `refreshTransportsForBankVisit` as written: with the quest and a staff in the bank (or the
     * diary) it calls `disableUnless(FAIRY_RING, true)`, which changes nothing, so a type that
     * `refreshTransports` disabled stays disabled and no fairy ring passes `useTransport`.
     */
    method RefreshTransportsForBankVisitAsWritten()
      modifies this`transports, typeConfig
      requires Valid()
      ensures typeConfig.enabledStates == old(typeConfig.enabledStates)
      ensures unchanged(typeConfig`costThresholds, typeConfig`teleportationItemSetting)
      ensures transports == BankVisitFairyRings(world, Snapshot(), Cached(), allTransports, old(transports),
        BankVisitOpensFairyRings(varbitValues, bank, ids))
    {
      var hasFairyRingQuest := ValueOr0(MapLookup(varbitValues), ids.fairyTaleIIVarbit) > 39;
      var hasLumbridgeDiary := ValueOr0(MapLookup(varbitValues), ids.lumbridgeEliteVarbit) == 1;
      var hasStaffInBank := HasStaffInBank();
      if hasFairyRingQuest && (hasLumbridgeDiary || hasStaffInBank) {
        typeConfig.DisableUnless(FAIRY_RING, true);
        AddFairyRings();
        RemapPohTransports();
      }
    }

    /**
     * `refreshTransportsForBankVisit` as evidently intended: the fairy-ring type gets back the
     * state the configuration gives it before the fairy rings are added.
     */
    method RefreshTransportsForBankVisit()
      modifies this`transports, typeConfig
      requires Valid()
      ensures typeConfig.enabledStates == BankVisitStates(old(typeConfig.enabledStates), typeConfig.settings,
        typeConfig.teleportationItemSetting, BankVisitOpensFairyRings(varbitValues, bank, ids))
      ensures transports == BankVisitFairyRings(world, Snapshot(), Cached(), allTransports, old(transports),
        BankVisitOpensFairyRings(varbitValues, bank, ids))
      ensures unchanged(typeConfig`costThresholds, typeConfig`teleportationItemSetting)
    {
      var hasFairyRingQuest := ValueOr0(MapLookup(varbitValues), ids.fairyTaleIIVarbit) > 39;
      var hasLumbridgeDiary := ValueOr0(MapLookup(varbitValues), ids.lumbridgeEliteVarbit) == 1;
      var hasStaffInBank := HasStaffInBank();
      if hasFairyRingQuest && (hasLumbridgeDiary || hasStaffInBank) {
        typeConfig.SetEnabled(FAIRY_RING, EnabledState(typeConfig.settings, typeConfig.teleportationItemSetting, FAIRY_RING));
        AddFairyRings();
        RemapPohTransports();
      }
    }

    /**
     * `setBankVisited`: on a visit, runs the bank-visit refresh as written (which leaves the type
     * flags alone), then adds the teleports the bank's items allow, and those teleports as
     * transports from `location`.
     */
    method SetBankVisited(visited: bool, location: int, wildernessLevel: int)
      modifies this`bankVisited, this`transports, this`usableTeleports, typeConfig
      requires Valid()
      ensures Valid() && bankVisited == visited
      ensures unchanged(typeConfig`costThresholds, typeConfig`teleportationItemSetting)
      ensures typeConfig.enabledStates == old(typeConfig.enabledStates)
      ensures !visited ==> (transports == old(transports) && usableTeleports == old(usableTeleports))
      ensures visited ==> (usableTeleports
        == old(usableTeleports) + UsableTeleports(Snapshot(), Cached(), allTransports, world.undefined, BANK_ONLY))
      ensures visited ==> (transports == AddAt(BankVisitFairyRings(world, Snapshot(), Cached(), allTransports,
        old(transports), BankVisitOpensFairyRings(varbitValues, bank, ids)), location,
        WildernessTeleports(usableTeleports, wildernessLevel)))
    {
      bankVisited := visited;
      if bankVisited {
        RefreshTransportsForBankVisitAsWritten();
        RefreshUsableTeleports();
        RefreshTeleports(location, wildernessLevel);
      }
    }

    /**
     * `setBankVisited` as evidently intended: on a visit, adds the fairy rings the bank's staff opens, the teleports the
     * bank's items allow, and those teleports as transports from `location`.
     */
    method SetBankVisitedIntended(visited: bool, location: int, wildernessLevel: int)
      modifies this`bankVisited, this`transports, this`usableTeleports, typeConfig
      requires Valid()
      ensures Valid() && bankVisited == visited
      ensures unchanged(typeConfig`costThresholds, typeConfig`teleportationItemSetting)
      ensures !visited ==> (transports == old(transports) && usableTeleports == old(usableTeleports)
        && typeConfig.enabledStates == old(typeConfig.enabledStates))
      ensures visited ==> typeConfig.enabledStates == BankVisitStates(old(typeConfig.enabledStates),
        typeConfig.settings, typeConfig.teleportationItemSetting, BankVisitOpensFairyRings(varbitValues, bank, ids))
      ensures visited ==> (usableTeleports
        == old(usableTeleports) + UsableTeleports(Snapshot(), Cached(), allTransports, world.undefined, BANK_ONLY))
      ensures visited ==> (transports == AddAt(BankVisitFairyRings(world, Snapshot(), Cached(), allTransports,
        old(transports), BankVisitOpensFairyRings(varbitValues, bank, ids)), location,
        WildernessTeleports(usableTeleports, wildernessLevel)))
    {
      bankVisited := visited;
      if bankVisited {
        RefreshTransportsForBankVisit();
        RefreshUsableTeleports();
        RefreshTeleports(location, wildernessLevel);
      }
    }

    /**
     * `refresh`: copies the settings and re-reads the per-type flags; when logged in, reads the
     * levels and runs `refreshTransports`; then picks the destinations.
     */
    method Refresh()
      modifies this`options, this`bankVisited, this`levels, this`transports, this`usableTeleports,
        this`questStates, this`varbitValues, this`varPlayerValues, this`destinations, typeConfig
      requires Valid()
      ensures Valid()
      ensures options == config && bankVisited == !config.includeBankPath
      ensures destinations == if config.avoidWilderness then filteredDestinations else allDestinations
      ensures typeConfig.teleportationItemSetting == typeConfig.settings.useTeleportationItems
      ensures forall t :: typeConfig.GetCost(t) == CostThreshold(typeConfig.settings, t)
      ensures client.loggedIn ==> (levels == client.boostedLevels
        && (forall t :: TypeEnabled(typeConfig.enabledStates, Some(t))
              == (EnabledState(typeConfig.settings, typeConfig.teleportationItemSetting, t) && TypeGate(client, ids, config, t)))
        && transports == RemapPoh(world, UsableMap(Snapshot(), LiveLookups(client), allTransports, world.undefined, allTransports.Keys))
        && usableTeleports == UsableTeleports(Snapshot(), LiveLookups(client), allTransports, world.undefined, EVERY_CONTAINER)
        && Remapped(world, transports))
      ensures !client.loggedIn ==> (typeConfig.Refreshed() && levels == old(levels)
        && transports == old(transports) && usableTeleports == old(usableTeleports)
        && questStates == old(questStates) && varbitValues == old(varbitValues) && varPlayerValues == old(varPlayerValues))
    {
      options := config;
      typeConfig.Refresh();
      bankVisited := !config.includeBankPath;
      if client.loggedIn {
        levels := client.boostedLevels;
        ghost var refreshed := typeConfig.enabledStates;
        RefreshTransports();
        forall t: TransportType
          ensures TypeEnabled(typeConfig.enabledStates, Some(t))
            == (EnabledState(typeConfig.settings, typeConfig.teleportationItemSetting, t) && TypeGate(client, ids, config, t))
        {
          GatedTypes(refreshed, client, ids, options, t);
        }
      }
      destinations := if options.avoidWilderness then filteredDestinations else allDestinations;
    }
  }
}
