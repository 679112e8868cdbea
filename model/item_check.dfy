/**
 * The item half of `PathfinderConfig.hasRequiredItems`: the item quantities the player holds,
 * gathered from the containers being checked, and the test of a transport's requirement groups
 * against them. Every group must be met; within a group any primary item will do, and failing
 * that a staff substitute or an offhand substitute, each of which may serve one group only.
 */
module ItemChecks {
  import opened Wrappers
  import opened JavaStrings
  import opened ItemRequirements
  import opened TransportItemsModel

  /** One stack of a client item container. */
  datatype Item = Item(id: int, quantity: int)

  /** One rune-pouch slot, with its rune already looked up in the rune-pouch enum (0: none). */
  datatype RuneSlot = RuneSlot(runeId: int, amount: int)

  /** Only stacks with a real id and something in them are recorded. */
  predicate Counted(item: Item) {
    item.id >= 0 && item.quantity > 0
  }

  /** `itemsAndQuantities.put` for every counted stack of a container, in container order. */
  function PutItems(held: map<int, int>, items: seq<Item>): map<int, int>
    decreases |items|
  {
    if items == [] then held
    else
      var before := PutItems(held, items[..|items| - 1]);
      var item := items[|items| - 1];
      if Counted(item) then before[item.id := item.quantity] else before
  }

  /**
   * Quantities overwrite rather than add up: an id is held iff it was held before or some counted
   * stack has it, and then the last such stack gives its quantity.
   */
  lemma {:induction false} PutItemsLastStackWins(held: map<int, int>, items: seq<Item>, id: int)
    ensures id in PutItems(held, items) <==>
      id in held || exists k :: 0 <= k < |items| && Counted(items[k]) && items[k].id == id
    ensures forall k ::
      (0 <= k < |items| && Counted(items[k]) && items[k].id == id
       && (forall j :: k < j < |items| && Counted(items[j]) ==> items[j].id != id)) ==>
      id in PutItems(held, items) && PutItems(held, items)[id] == items[k].quantity
    ensures (forall k :: 0 <= k < |items| && Counted(items[k]) ==> items[k].id != id) ==>
      (id in held ==> id in PutItems(held, items) && PutItems(held, items)[id] == held[id])
    decreases |items|
  {
    if items != [] {
      var front := items[..|items| - 1];
      PutItemsLastStackWins(held, front, id);
      assert forall k :: 0 <= k < |front| ==> front[k] == items[k];
      if exists k :: 0 <= k < |items| && Counted(items[k]) && items[k].id == id {
        var k :| 0 <= k < |items| && Counted(items[k]) && items[k].id == id;
        if k < |front| {
          assert Counted(front[k]) && front[k].id == id;
        }
      }
    }
  }

  /** The rune pouch's slots, in slot order, each overwriting its rune's quantity. */
  function PutRunes(held: map<int, int>, slots: seq<RuneSlot>): map<int, int>
    decreases |slots|
  {
    if slots == [] then held
    else
      var before := PutRunes(held, slots[..|slots| - 1]);
      var slot := slots[|slots| - 1];
      if slot.runeId > 0 && slot.amount > 0 then before[slot.runeId := slot.amount] else before
  }

  /** Some rune pouch is among the items recorded so far. */
  predicate HasRunePouch(held: map<int, int>, runePouches: seq<int>) {
    exists k :: 0 <= k < |runePouches| && runePouches[k] in held
  }

  /**
   * The containers a check looks at; a container that is not checked, or not available, is `None`.
   * `runePouch` is the pouch's slots when the rune pouch is checked.
   */
  datatype Containers = Containers(
    inventory: Option<seq<Item>>,
    equipment: Option<seq<Item>>,
    bank: Option<seq<Item>>,
    runePouch: Option<seq<RuneSlot>>)

  /** The item quantities: inventory, then equipment, then bank, then the rune pouch's runes. */
  function Holdings(c: Containers, runePouches: seq<int>): map<int, int> {
    var afterInventory := if c.inventory.Some? then PutItems(map[], c.inventory.value) else map[];
    var afterEquipment := if c.equipment.Some? then PutItems(afterInventory, c.equipment.value) else afterInventory;
    var afterBank := if c.bank.Some? then PutItems(afterEquipment, c.bank.value) else afterEquipment;
    if c.runePouch.Some? && HasRunePouch(afterBank, runePouches) then PutRunes(afterBank, c.runePouch.value)
    else afterBank
  }

  /** A container that is not looked at contributes nothing. */
  lemma UncheckedContainersDoNotCount(c: Containers, runePouches: seq<int>)
    requires c.inventory.None? && c.equipment.None? && c.bank.None?
    ensures Holdings(c, runePouches) == map[]
  {
  }

  /** `itemsAndQuantities.getOrDefault(id, 0)`. */
  function HeldOf(held: map<int, int>, id: int): int {
    if id in held then held[id] else 0
  }

  /** A primary item meets a group when enough is held, or when the group asks for none and none is held. */
  predicate PrimaryHolds(required: int, quantity: int) {
    (required > 0 && quantity >= required) || (required == 0 && quantity == 0)
  }

  /** A staff or offhand substitute needs only one of itself, whatever the group's quantity. */
  predicate SubstituteHolds(required: int, quantity: int) {
    (required > 0 && quantity >= 1) || (required == 0 && quantity == 0)
  }

  predicate Holds(held: map<int, int>, required: int, primary: bool, id: int) {
    if primary then PrimaryHolds(required, HeldOf(held, id)) else SubstituteHolds(required, HeldOf(held, id))
  }

  /** The position of the first id that holds, scanning the alternatives in order. */
  function FirstMatch(ids: seq<int>, held: map<int, int>, required: int, primary: bool): (k: Option<nat>)
    ensures k.Some? ==>
      (k.value < |ids| && Holds(held, required, primary, ids[k.value])
       && forall j :: 0 <= j < k.value ==> !Holds(held, required, primary, ids[j]))
    ensures k.None? ==> forall j :: 0 <= j < |ids| ==> !Holds(held, required, primary, ids[j])
    decreases |ids|
  {
    if ids == [] then None
    else if Holds(held, required, primary, ids[0]) then Some(0)
    else
      match FirstMatch(ids[1..], held, required, primary)
      case None => None
      case Some(k) => Some(k + 1)
  }

  /** The first matching id of an array; a `null` array has none. */
  function FirstIn(a: IntArray, held: map<int, int>, required: int, primary: bool): Option<nat> {
    match a
    case NullArray => None
    case Arr(elems) => FirstMatch(elems, held, required, primary)
  }

  /** What met a group. */
  datatype Source = Primary(id: int) | Staff(id: int) | Offhand(id: int)

  /** How one group fares: met by some source, missing, or paid in a currency above the ceiling. */
  datatype Outcome = Met(source: Source) | Missing | OverCurrencyThreshold

  /** One pass of the group loop, given whether the staff and the offhand are already in use. */
  function GroupOutcome(r: ItemRequirement, held: map<int, int>, currencies: set<int>, currencyThreshold: int,
                        usingStaff: bool, usingOffhand: bool): Outcome
  {
    var q := r.quantity;
    var primary := FirstIn(r.itemIds, held, q, true);
    if primary.Some? then
      var id := r.itemIds.elems[primary.value];
      if id in currencies && q > currencyThreshold then OverCurrencyThreshold else Met(Primary(id))
    else
      var staff := if usingStaff then None else FirstIn(r.staffIds, held, q, false);
      if staff.Some? then Met(Staff(r.staffIds.elems[staff.value]))
      else
        var offhand := if usingOffhand then None else FirstIn(r.offhandIds, held, q, false);
        if offhand.Some? then Met(Offhand(r.offhandIds.elems[offhand.value])) else Missing
  }

  /**
   * The group loop: the source meeting each group, or `None` as soon as one group is missing or
   * exceeds the currency ceiling.
   */
  function Resolve(reqs: seq<ItemRequirement>, held: map<int, int>, currencies: set<int>, currencyThreshold: int,
                   usingStaff: bool, usingOffhand: bool): (sources: Option<seq<Source>>)
    ensures sources.Some? ==> |sources.value| == |reqs|
    decreases |reqs|
  {
    if reqs == [] then Some([])
    else
      match GroupOutcome(reqs[0], held, currencies, currencyThreshold, usingStaff, usingOffhand)
      case Met(source) =>
        var rest := Resolve(reqs[1..], held, currencies, currencyThreshold,
                            usingStaff || source.Staff?, usingOffhand || source.Offhand?);
        if rest.Some? then Some([source] + rest.value) else None
      case _ => None
  }

  /** `hasRequiredItems(transportItems, …)` given the quantities held: no requirements are always met. */
  predicate ItemsMet(items: Option<TransportItems>, held: map<int, int>, currencies: set<int>, currencyThreshold: int) {
    items.None? || Resolve(items.value.requirements, held, currencies, currencyThreshold, false, false).Some?
  }

  /** Whether `source` genuinely meets group `r`. */
  predicate Serves(source: Source, r: ItemRequirement, held: map<int, int>, currencies: set<int>, currencyThreshold: int) {
    match source
    case Primary(id) =>
      r.itemIds.Arr? && id in r.itemIds.elems && PrimaryHolds(r.quantity, HeldOf(held, id))
      && !(id in currencies && r.quantity > currencyThreshold)
    case Staff(id) => r.staffIds.Arr? && id in r.staffIds.elems && SubstituteHolds(r.quantity, HeldOf(held, id))
    case Offhand(id) => r.offhandIds.Arr? && id in r.offhandIds.elems && SubstituteHolds(r.quantity, HeldOf(held, id))
  }

  /**
   * When the check passes, every group is met by a source that really serves it, a staff serves
   * at most one group and an offhand at most one (none if already in use), and a substitute is only
   * used for a group none of whose primary items holds.
   */
  lemma {:induction false} ResolvedSourcesServe(reqs: seq<ItemRequirement>, held: map<int, int>, currencies: set<int>,
                                                currencyThreshold: int, usingStaff: bool, usingOffhand: bool)
    requires Resolve(reqs, held, currencies, currencyThreshold, usingStaff, usingOffhand).Some?
    ensures var s := Resolve(reqs, held, currencies, currencyThreshold, usingStaff, usingOffhand).value;
      && (forall i :: 0 <= i < |s| ==> Serves(s[i], reqs[i], held, currencies, currencyThreshold))
      && (forall i :: 0 <= i < |s| && !s[i].Primary? ==> FirstIn(reqs[i].itemIds, held, reqs[i].quantity, true).None?)
      && (forall i, j :: 0 <= i < j < |s| ==> !(s[i].Staff? && s[j].Staff?) && !(s[i].Offhand? && s[j].Offhand?))
      && (usingStaff ==> forall i :: 0 <= i < |s| ==> !s[i].Staff?)
      && (usingOffhand ==> forall i :: 0 <= i < |s| ==> !s[i].Offhand?)
    decreases |reqs|
  {
    if reqs != [] {
      var out := GroupOutcome(reqs[0], held, currencies, currencyThreshold, usingStaff, usingOffhand);
      var source := out.source;
      var s := Resolve(reqs, held, currencies, currencyThreshold, usingStaff, usingOffhand).value;
      ResolvedSourcesServe(reqs[1..], held, currencies, currencyThreshold,
                           usingStaff || source.Staff?, usingOffhand || source.Offhand?);
      var rest := Resolve(reqs[1..], held, currencies, currencyThreshold,
                          usingStaff || source.Staff?, usingOffhand || source.Offhand?).value;
      assert s == [source] + rest;
      var r := reqs[0];
      match source
      case Primary(id) =>
        var k := FirstIn(r.itemIds, held, r.quantity, true).value;
        assert id == r.itemIds.elems[k];
      case Staff(id) =>
        var k := FirstIn(r.staffIds, held, r.quantity, false).value;
        assert id == r.staffIds.elems[k];
      case Offhand(id) =>
        var k := FirstIn(r.offhandIds, held, r.quantity, false).value;
        assert id == r.offhandIds.elems[k];
    }
  }

  /**
   * The currency ceiling: if the first primary item that holds for some group is a currency and
   * the group asks for more than the threshold, the whole check fails, whatever the other groups.
   */
  lemma {:induction false} CurrencyCeilingFails(reqs: seq<ItemRequirement>, held: map<int, int>, currencies: set<int>,
                                                currencyThreshold: int, usingStaff: bool, usingOffhand: bool, i: nat)
    requires i < |reqs|
    requires reqs[i].itemIds.Arr?
    requires FirstIn(reqs[i].itemIds, held, reqs[i].quantity, true).Some?
    requires reqs[i].itemIds.elems[FirstIn(reqs[i].itemIds, held, reqs[i].quantity, true).value] in currencies
    requires reqs[i].quantity > currencyThreshold
    ensures Resolve(reqs, held, currencies, currencyThreshold, usingStaff, usingOffhand).None?
    decreases |reqs|
  {
    if i > 0 {
      var out := GroupOutcome(reqs[0], held, currencies, currencyThreshold, usingStaff, usingOffhand);
      if out.Met? {
        assert reqs[1..][i - 1] == reqs[i];
        CurrencyCeilingFails(reqs[1..], held, currencies, currencyThreshold,
                             usingStaff || out.source.Staff?, usingOffhand || out.source.Offhand?, i - 1);
      }
    }
  }

  /** The loop stops at the first group it cannot meet: what follows a failing prefix is never looked at. */
  lemma {:induction false} FailureIgnoresLaterGroups(front: seq<ItemRequirement>, later: seq<ItemRequirement>,
                                                     held: map<int, int>, currencies: set<int>, currencyThreshold: int,
                                                     usingStaff: bool, usingOffhand: bool)
    requires Resolve(front, held, currencies, currencyThreshold, usingStaff, usingOffhand).None?
    ensures Resolve(front + later, held, currencies, currencyThreshold, usingStaff, usingOffhand).None?
    decreases |front|
  {
    assert front != [];
    assert (front + later)[0] == front[0];
    assert (front + later)[1..] == front[1..] + later;
    var out := GroupOutcome(front[0], held, currencies, currencyThreshold, usingStaff, usingOffhand);
    if out.Met? {
      FailureIgnoresLaterGroups(front[1..], later, held, currencies, currencyThreshold,
                                usingStaff || out.source.Staff?, usingOffhand || out.source.Offhand?);
    }
  }

  /** Groups each met by a primary item under the currency ceiling pass, without touching a substitute. */
  lemma {:induction false} PrimaryItemsSuffice(reqs: seq<ItemRequirement>, held: map<int, int>, currencies: set<int>,
                                               currencyThreshold: int, usingStaff: bool, usingOffhand: bool)
    requires forall i :: 0 <= i < |reqs| ==>
      (reqs[i].itemIds.Arr?
       && exists k :: 0 <= k < |reqs[i].itemIds.elems| && PrimaryHolds(reqs[i].quantity, HeldOf(held, reqs[i].itemIds.elems[k])))
    requires forall i :: 0 <= i < |reqs| ==> forall k :: 0 <= k < |reqs[i].itemIds.elems| ==>
      reqs[i].itemIds.elems[k] in currencies ==> reqs[i].quantity <= currencyThreshold
    ensures var s := Resolve(reqs, held, currencies, currencyThreshold, usingStaff, usingOffhand);
      s.Some? && forall i :: 0 <= i < |s.value| ==> s.value[i].Primary?
    decreases |reqs|
  {
    if reqs != [] {
      var r := reqs[0];
      var k :| 0 <= k < |r.itemIds.elems| && PrimaryHolds(r.quantity, HeldOf(held, r.itemIds.elems[k]));
      assert Holds(held, r.quantity, true, r.itemIds.elems[k]);
      assert FirstIn(r.itemIds, held, r.quantity, true).Some?;
      PrimaryItemsSuffice(reqs[1..], held, currencies, currencyThreshold, usingStaff, usingOffhand);
    }
  }

  /** The scan of one array of alternatives, stopping at the first that holds. */
  method FindFirst(a: IntArray, held: map<int, int>, required: int, primary: bool) returns (k: Option<nat>)
    ensures k == FirstIn(a, held, required, primary)
  {
    if a.NullArray? {
      return None;
    }
    var ids := a.elems;
    var i := 0;
    while i < |ids|
      invariant 0 <= i <= |ids|
      invariant FirstMatch(ids, held, required, primary) ==
        (match FirstMatch(ids[i..], held, required, primary) case None => None case Some(j) => Some(j + i))
    {
      assert ids[i..][1..] == ids[i + 1..];
      if Holds(held, required, primary, ids[i]) {
        return Some(i);
      }
      i := i + 1;
    }
    return None;
  }

  /** The group loop of `hasRequiredItems`, with its `usingStaff` and `usingOffhand` flags. */
  method CheckGroups(reqs: seq<ItemRequirement>, held: map<int, int>, currencies: set<int>, currencyThreshold: int)
    returns (ok: bool)
    ensures ok == Resolve(reqs, held, currencies, currencyThreshold, false, false).Some?
  {
    var usingStaff := false;
    var usingOffhand := false;
    for i := 0 to |reqs|
      invariant Resolve(reqs, held, currencies, currencyThreshold, false, false).Some? ==
        Resolve(reqs[i..], held, currencies, currencyThreshold, usingStaff, usingOffhand).Some?
    {
      assert reqs[i..][1..] == reqs[i + 1..];
      var r := reqs[i];
      var missing := true;
      var primary := FindFirst(r.itemIds, held, r.quantity, true);
      if primary.Some? {
        if r.itemIds.elems[primary.value] in currencies && r.quantity > currencyThreshold {
          return false;
        }
        missing := false;
      }
      if missing && !usingStaff {
        var staff := FindFirst(r.staffIds, held, r.quantity, false);
        if staff.Some? {
          usingStaff := true;
          missing := false;
        }
      }
      if missing && !usingOffhand {
        var offhand := FindFirst(r.offhandIds, held, r.quantity, false);
        if offhand.Some? {
          usingOffhand := true;
          missing := false;
        }
      }
      if missing {
        return false;
      }
    }
    return true;
  }

  /** One container's loop of `itemsAndQuantities.put`. */
  method PutAll(held: map<int, int>, items: seq<Item>) returns (m: map<int, int>)
    ensures m == PutItems(held, items)
  {
    m := held;
    for i := 0 to |items|
      invariant m == PutItems(held, items[..i])
    {
      assert items[..i + 1][..i] == items[..i];
      if items[i].id >= 0 && items[i].quantity > 0 {
        m := m[items[i].id := items[i].quantity];
      }
    }
    assert items[..|items|] == items;
  }

  /** The rune-pouch loop over its slots. */
  method PutPouchRunes(held: map<int, int>, slots: seq<RuneSlot>) returns (m: map<int, int>)
    ensures m == PutRunes(held, slots)
  {
    m := held;
    for i := 0 to |slots|
      invariant m == PutRunes(held, slots[..i])
    {
      assert slots[..i + 1][..i] == slots[..i];
      if slots[i].runeId > 0 && slots[i].amount > 0 {
        m := m[slots[i].runeId := slots[i].amount];
      }
    }
    assert slots[..|slots|] == slots;
  }

  /** `RUNE_POUCHES.stream().anyMatch(itemsAndQuantities::containsKey)`. */
  method AnyRunePouch(held: map<int, int>, runePouches: seq<int>) returns (found: bool)
    ensures found == HasRunePouch(held, runePouches)
  {
    for i := 0 to |runePouches|
      invariant forall j :: 0 <= j < i ==> runePouches[j] !in held
    {
      if runePouches[i] in held {
        return true;
      }
    }
    return false;
  }

  /** Gathering the quantities held from the containers being checked. */
  method GatherHoldings(c: Containers, runePouches: seq<int>) returns (held: map<int, int>)
    ensures held == Holdings(c, runePouches)
  {
    held := map[];
    if c.inventory.Some? {
      held := PutAll(held, c.inventory.value);
    }
    if c.equipment.Some? {
      held := PutAll(held, c.equipment.value);
    }
    if c.bank.Some? {
      held := PutAll(held, c.bank.value);
    }
    if c.runePouch.Some? {
      var hasPouch := AnyRunePouch(held, runePouches);
      if hasPouch {
        held := PutPouchRunes(held, c.runePouch.value);
      }
    }
  }

  /** `hasRequiredItems(transportItems, …)`: `null` requirements are always met. */
  method HasRequiredItems(items: Option<TransportItems>, c: Containers, runePouches: seq<int>,
                          currencies: set<int>, currencyThreshold: int) returns (ok: bool)
    ensures ok == ItemsMet(items, Holdings(c, runePouches), currencies, currencyThreshold)
    ensures items.None? ==> ok
  {
    if items.None? {
      return true;
    }
    var held := GatherHoldings(c, runePouches);
    ok := CheckGroups(items.value.requirements, held, currencies, currencyThreshold);
  }
}
