/**
 * `BankPickupRequirements`: when a path passes a bank, the items to take out there so that the
 * transports used later on the path can be used: a Dramen or Lunar staff for a fairy ring, and the
 * teleport item of the first teleportation-item transport.
 */
module BankPickups {
  import opened Wrappers
  import opened JavaStrings
  import opened ItemRequirements
  import opened TransportItemsModel
  import opened TransportTypes
  import opened ItemChecks
  import opened Transports
  import TransportRules

  /** The two client containers a player carries items in; either may be missing (`null`). */
  datatype Carried = Carried(inventory: Option<seq<Item>>, equipment: Option<seq<Item>>)

  /** The label added for a staff. */
  const STAFF_LABEL: string := "Dramen/Lunar staff"

  /** Some stack of the container has one of the ids, whatever its quantity. */
  predicate Holds(items: Option<seq<Item>>, itemIds: seq<Int32>) {
    items.Some? && exists i, j :: 0 <= i < |items.value| && 0 <= j < |itemIds| && items.value[i].id == itemIds[j]
  }

  /** `hasItemInInventoryOrEquipment`: a missing container holds nothing. */
  predicate HasItemInInventoryOrEquipment(carried: Carried, itemIds: seq<Int32>) {
    Holds(carried.inventory, itemIds) || Holds(carried.equipment, itemIds)
  }

  /** `hasItemInBank`: a stack of one of the ids with a positive quantity. */
  predicate HasItemInBank(bank: seq<Item>, itemIds: seq<Int32>) {
    exists i, j :: 0 <= i < |bank| && 0 <= j < |itemIds| && bank[i].id == itemIds[j] && bank[i].quantity > 0
  }

  /**
   * An empty stack counts as carried but not as banked: the same single stack of quantity 0 makes
   * the inventory hold the item and leaves the bank without it.
   */
  lemma EmptyStacks(id: Int32)
    ensures HasItemInInventoryOrEquipment(Carried(Some([Item(id, 0)]), None), [id])
    ensures !HasItemInBank([Item(id, 0)], [id])
    ensures HasItemInBank([Item(id, 1)], [id])
  {
    var s := [Item(id, 0)];
    assert s[0].id == [id][0];
    var b := [Item(id, 1)];
    assert b[0].id == [id][0] && b[0].quantity > 0;
  }

  /** `checkDramenStaffInBank`: the staff label when no staff is carried but one is banked. */
  function CheckDramenStaffInBank(carried: Carried, bank: seq<Item>, staves: seq<Int32>): (r: Option<string>)
    ensures r.Some? <==> !HasItemInInventoryOrEquipment(carried, staves) && HasItemInBank(bank, staves)
    ensures r.Some? ==> r.value == STAFF_LABEL
  {
    if HasItemInInventoryOrEquipment(carried, staves) then None
    else if HasItemInBank(bank, staves) then Some(STAFF_LABEL)
    else None
  }

  /**
   * The name a teleport's display text gives: the trimmed text before the first ':' when a ':'
   * follows at least one character, otherwise the whole text.
   */
  function TeleportLabel(displayInfo: string): (r: string)
    ensures var c := IndexOf(displayInfo, ':');
      && (c > 0 ==> |r| <= c && Avoids(r, ':') && r == Trim(displayInfo[..c]))
      && (c <= 0 ==> r == displayInfo)
  {
    var colonIndex := IndexOf(displayInfo, ':');
    if colonIndex > 0 then
      TrimSubsequence(displayInfo[..colonIndex]);
      Trim(displayInfo[..colonIndex])
    else displayInfo
  }

  /** Trimming keeps a contiguous part of the text, so it adds no character. */
  lemma TrimSubsequence(s: string)
    requires Avoids(s, ':')
    ensures |Trim(s)| <= |s| && Avoids(Trim(s), ':')
  {
    var a := TrimStart(s);
    var b := TrimEnd(a);
    assert forall i | 0 <= i < |a| :: a[i] == s[|s| - |a| + i];
    assert forall i | 0 <= i < |b| :: b[i] == a[i];
  }

  /** The teleport item ids: those of the first requirement group, if there is one. */
  function TeleportItemIds(t: Transport): IntArray {
    if t.itemRequirements.None? || |t.itemRequirements.value.requirements| == 0 then NullArray
    else t.itemRequirements.value.requirements[0].itemIds
  }

  /**
   * `checkTeleportItemInBank`: the teleport's label when its transport has items, the first group
   * names some, none of them is carried, one is banked, and the transport has display text.
   */
  function CheckTeleportItemInBank(carried: Carried, bank: seq<Item>, t: Transport): (r: Option<string>)
    ensures r.Some? <==>
      && TeleportItemIds(t).Arr? && |TeleportItemIds(t).elems| > 0
      && !HasItemInInventoryOrEquipment(carried, TeleportItemIds(t).elems)
      && HasItemInBank(bank, TeleportItemIds(t).elems)
      && t.displayInfo.Some?
    ensures r.Some? ==> r.value == TeleportLabel(t.displayInfo.value)
  {
    if t.itemRequirements.None? || |t.itemRequirements.value.requirements| == 0 then None
    else
      var teleportItemIds := t.itemRequirements.value.requirements[0].itemIds;
      if teleportItemIds.NullArray? || |teleportItemIds.elems| == 0 then None
      else if HasItemInInventoryOrEquipment(carried, teleportItemIds.elems) then None
      else if HasItemInBank(bank, teleportItemIds.elems) && t.displayInfo.Some? then
        Some(TeleportLabel(t.displayInfo.value))
      else None
  }

  /** The loop over one container's stacks and the ids, stopping at the first stack with one of the ids. */
  method ContainerHolds(items: Option<seq<Item>>, itemIds: seq<Int32>) returns (found: bool)
    ensures found == Holds(items, itemIds)
  {
    if items.None? {
      return false;
    }
    var stacks := items.value;
    for i := 0 to |stacks|
      invariant forall k, j :: 0 <= k < i && 0 <= j < |itemIds| ==> stacks[k].id != itemIds[j]
    {
      for j := 0 to |itemIds|
        invariant forall m :: 0 <= m < j ==> stacks[i].id != itemIds[m]
      {
        if stacks[i].id == itemIds[j] {
          return true;
        }
      }
    }
    return false;
  }

  /** `hasItemInInventoryOrEquipment`: the inventory's loop, then the equipment's. */
  method CarriedHolds(carried: Carried, itemIds: seq<Int32>) returns (found: bool)
    ensures found == HasItemInInventoryOrEquipment(carried, itemIds)
  {
    found := ContainerHolds(carried.inventory, itemIds);
    if !found {
      found := ContainerHolds(carried.equipment, itemIds);
    }
  }

  /** `hasItemInBank`: the loop over the bank's stacks and the ids, stopping at the first non-empty match. */
  method BankHolds(bank: seq<Item>, itemIds: seq<Int32>) returns (found: bool)
    ensures found == HasItemInBank(bank, itemIds)
  {
    for i := 0 to |bank|
      invariant forall k, j :: 0 <= k < i && 0 <= j < |itemIds| ==> !(bank[k].id == itemIds[j] && bank[k].quantity > 0)
    {
      for j := 0 to |itemIds|
        invariant forall m :: 0 <= m < j ==> !(bank[i].id == itemIds[m] && bank[i].quantity > 0)
      {
        if bank[i].id == itemIds[j] && bank[i].quantity > 0 {
          return true;
        }
      }
    }
    return false;
  }

  /** `checkDramenStaffInBank` with its two searches. */
  method DramenStaffPickup(carried: Carried, bank: seq<Item>, staves: seq<Int32>) returns (r: Option<string>)
    ensures r == CheckDramenStaffInBank(carried, bank, staves)
  {
    var carriedStaff := CarriedHolds(carried, staves);
    if carriedStaff {
      return None;
    }
    var bankedStaff := BankHolds(bank, staves);
    r := if bankedStaff then Some(STAFF_LABEL) else None;
  }

  /** `checkTeleportItemInBank` with its two searches. */
  method TeleportPickup(carried: Carried, bank: seq<Item>, t: Transport) returns (r: Option<string>)
    ensures r == CheckTeleportItemInBank(carried, bank, t)
  {
    if t.itemRequirements.None? || |t.itemRequirements.value.requirements| == 0 {
      return None;
    }
    var teleportItemIds := t.itemRequirements.value.requirements[0].itemIds;
    if teleportItemIds.NullArray? || |teleportItemIds.elems| == 0 {
      return None;
    }
    var carriedItem := CarriedHolds(carried, teleportItemIds.elems);
    if carriedItem {
      return None;
    }
    var bankedItem := BankHolds(bank, teleportItemIds.elems);
    r := if bankedItem && t.displayInfo.Some? then Some(TeleportLabel(t.displayInfo.value)) else None;
  }

  /** Step `i` of the path uses transport `t`: `t` leaves from `path[i]` and arrives at `path[i + 1]`. */
  predicate UsedAt(transports: map<int, set<Transport>>, path: seq<int>, i: int, t: Transport) {
    0 <= i < |path| - 1 && path[i] in transports && t in transports[path[i]] && t.destination == path[i + 1]
  }

  /** Some step from `from` up to `to` uses a fairy ring. */
  predicate FairyRingUsed(transports: map<int, set<Transport>>, path: seq<int>, from: int, to: int) {
    exists i, t :: from <= i < to && 0 <= i < |path| - 1 && path[i] in transports && t in transports[path[i]]
      && FairyAt(transports, path, i, t)
  }

  /** Step `i` uses some teleportation-item transport. */
  predicate TeleportItemUsedAt(transports: map<int, set<Transport>>, path: seq<int>, i: int) {
    0 <= i < |path| - 1 && path[i] in transports && exists t | t in transports[path[i]] :: TeleportAt(transports, path, i, t)
  }

  /**
   * `teleport` is what the scan keeps from the steps `from` up to `to`: nothing when no step uses a
   * teleportation item, otherwise a teleportation-item transport of the first step that uses one.
   */
  predicate FirstTeleport(transports: map<int, set<Transport>>, path: seq<int>, from: int, to: int,
                          teleport: Option<Transport>) {
    && (teleport.None? <==> forall i | from <= i < to :: !TeleportItemUsedAt(transports, path, i))
    && (teleport.Some? ==> exists i ::
          && from <= i < to && UsedAt(transports, path, i, teleport.value)
          && teleport.value.transportType == Some(TELEPORTATION_ITEM)
          && forall j | from <= j < i :: !TeleportItemUsedAt(transports, path, j))
  }

  /** The teleport the scan keeps from every step of the path from `from` on. */
  predicate FirstTeleportOnPath(transports: map<int, set<Transport>>, path: seq<int>, from: int, teleport: Option<Transport>) {
    FirstTeleport(transports, path, from, |path| - 1, teleport)
  }

  /** The scan runs only with a bank, a path, and an index inside the path that is a bank tile. */
  predicate Scans(bank: Option<seq<Item>>, path: Option<seq<int>>, pathIndex: int, bankLocations: set<int>) {
    bank.Some? && path.Some? && 0 <= pathIndex < |path.value| && path.value[pathIndex] in bankLocations
  }

  function OptionList(o: Option<string>): seq<string> {
    if o.Some? then [o.value] else []
  }

  /** The list built after the scan: the staff entry, if any, then the teleport entry, if any. */
  function Pickups(carried: Carried, bank: seq<Item>, staves: seq<Int32>, usesFairyRing: bool,
                   teleport: Option<Transport>): seq<string> {
    (if usesFairyRing then OptionList(CheckDramenStaffInBank(carried, bank, staves)) else [])
    + (if teleport.Some? then OptionList(CheckTeleportItemInBank(carried, bank, teleport.value)) else [])
  }

  /**
   * At most two entries; the staff entry comes first and is there exactly when a fairy ring is
   * used and the staff is banked but not carried; the teleport entry is the teleport's label.
   */
  lemma PickupsShape(carried: Carried, bank: seq<Item>, staves: seq<Int32>, usesFairyRing: bool,
                     teleport: Option<Transport>)
    ensures var r := Pickups(carried, bank, staves, usesFairyRing, teleport);
      var staff := usesFairyRing && !HasItemInInventoryOrEquipment(carried, staves) && HasItemInBank(bank, staves);
      && |r| <= 2
      && (staff ==> r[0] == STAFF_LABEL)
      && (teleport.None? ==> r == (if staff then [STAFF_LABEL] else []))
      && (teleport.Some? && CheckTeleportItemInBank(carried, bank, teleport.value).Some? ==>
            r[|r| - 1] == TeleportLabel(teleport.value.displayInfo.value) && |r| == (if staff then 2 else 1))
      && (teleport.Some? && CheckTeleportItemInBank(carried, bank, teleport.value).None? ==>
            r == (if staff then [STAFF_LABEL] else []))
  {
  }

  /**
   * `getRequiredBankItems`: nothing unless there is a bank, a path and an index inside it at a
   * bank tile; then scans every step from there on for the transports it uses, noting whether any
   * is a fairy ring and keeping the first teleportation-item transport met, and lists what must
   * be taken from the bank for them. Which of several teleportation-item transports of one step is
   * met first depends on the set's iteration order, so any of them may be kept.
   */
  method GetRequiredBankItems(carried: Carried, bank: Option<seq<Item>>, transports: map<int, set<Transport>>,
                              bankLocations: set<int>, path: Option<seq<int>>, pathIndex: int, staves: seq<Int32>)
    returns (requiredItems: seq<string>)
    ensures !Scans(bank, path, pathIndex, bankLocations) ==> requiredItems == []
    ensures Scans(bank, path, pathIndex, bankLocations) ==>
      var p := path.value;
      exists teleport :: FirstTeleportOnPath(transports, p, pathIndex, teleport) && requiredItems ==
        Pickups(carried, bank.value, staves, FairyRingUsed(transports, p, pathIndex, |p| - 1), teleport)
  {
    requiredItems := [];
    if bank.None? || path.None? || pathIndex < 0 || pathIndex >= |path.value| {
      return;
    }
    var p := path.value;
    if p[pathIndex] !in bankLocations {
      return;
    }
    var usesFairyRing := false;
    var teleportTransport: Option<Transport> := None;
    for i := pathIndex to |p| - 1
      invariant usesFairyRing == FairyRingUsed(transports, p, pathIndex, i)
      invariant FirstTeleport(transports, p, pathIndex, i, teleportTransport)
    {
      usesFairyRing, teleportTransport := ScanStep(transports, p, pathIndex, i, usesFairyRing, teleportTransport);
    }
    if usesFairyRing {
      var staffPickup := DramenStaffPickup(carried, bank.value, staves);
      if staffPickup.Some? {
        requiredItems := requiredItems + [staffPickup.value];
      }
    }
    if teleportTransport.Some? {
      var teleportPickup := TeleportPickup(carried, bank.value, teleportTransport.value);
      if teleportPickup.Some? {
        requiredItems := requiredItems + [teleportPickup.value];
      }
    }
    assert FirstTeleportOnPath(transports, p, pathIndex, teleportTransport);
  }

  /**
   * One step of the scan: looks at every transport leaving `path[i]` (none when the tile has no
   * entry) that arrives at `path[i + 1]`.
   */
  method ScanStep(transports: map<int, set<Transport>>, path: seq<int>, from: int, i: int,
                  usesFairyRing: bool, teleport: Option<Transport>)
    returns (usesFairyRing': bool, teleport': Option<Transport>)
    requires 0 <= from <= i < |path| - 1
    requires usesFairyRing == FairyRingUsed(transports, path, from, i)
    requires FirstTeleport(transports, path, from, i, teleport)
    ensures usesFairyRing' == FairyRingUsed(transports, path, from, i + 1)
    ensures FirstTeleport(transports, path, from, i + 1, teleport')
  {
    usesFairyRing', teleport' := usesFairyRing, teleport;
    var stepPoint := path[i];
    var nextPoint := path[i + 1];
    var stepTransports := if stepPoint in transports then transports[stepPoint] else {};
    var rest := stepTransports;
    ghost var done: set<Transport> := {};
    while rest != {}
      invariant rest + done == stepTransports && rest !! done
      invariant usesFairyRing' == (usesFairyRing || exists t | t in done :: FairyAt(transports, path, i, t))
      invariant teleport.Some? ==> teleport' == teleport
      invariant teleport.None? ==> (teleport'.None? <==> forall t | t in done :: !TeleportAt(transports, path, i, t))
      invariant teleport.None? && teleport'.Some? ==> TeleportAt(transports, path, i, teleport'.value)
      decreases rest
    {
      ghost var some := TransportRules.Pick(rest);
      var t :| t in rest;
      if t.destination == nextPoint {
        if t.transportType == Some(FAIRY_RING) {
          usesFairyRing' := true;
        }
        if t.transportType == Some(TELEPORTATION_ITEM) && teleport'.None? {
          teleport' := Some(t);
        }
      }
      rest := rest - {t};
      done := done + {t};
    }
    ScanStepMeans(transports, path, from, i, usesFairyRing, teleport, usesFairyRing', teleport');
  }

  /** Transport `t` is a fairy ring used at step `i`. */
  predicate FairyAt(transports: map<int, set<Transport>>, path: seq<int>, i: int, t: Transport) {
    UsedAt(transports, path, i, t) && t.transportType == Some(FAIRY_RING)
  }

  /** Transport `t` is a teleportation item used at step `i`. */
  predicate TeleportAt(transports: map<int, set<Transport>>, path: seq<int>, i: int, t: Transport) {
    UsedAt(transports, path, i, t) && t.transportType == Some(TELEPORTATION_ITEM)
  }

  /** What one step's findings add to the scan of the steps before it. */
  lemma ScanStepMeans(transports: map<int, set<Transport>>, path: seq<int>, from: int, i: int,
                      usesFairyRing: bool, teleport: Option<Transport>, usesFairyRing': bool, teleport': Option<Transport>)
    requires 0 <= from <= i < |path| - 1
    requires usesFairyRing == FairyRingUsed(transports, path, from, i)
    requires FirstTeleport(transports, path, from, i, teleport)
    requires var here := if path[i] in transports then transports[path[i]] else {};
      usesFairyRing' == (usesFairyRing || exists t | t in here :: FairyAt(transports, path, i, t))
    requires teleport.Some? ==> teleport' == teleport
    requires var here := if path[i] in transports then transports[path[i]] else {};
      teleport.None? ==> (teleport'.None? <==> forall t | t in here :: !TeleportAt(transports, path, i, t))
    requires teleport.None? && teleport'.Some? ==> TeleportAt(transports, path, i, teleport'.value)
    ensures usesFairyRing' == FairyRingUsed(transports, path, from, i + 1)
    ensures FirstTeleport(transports, path, from, i + 1, teleport')
  {
    if usesFairyRing' && !usesFairyRing {
      var t :| t in transports[path[i]] && FairyAt(transports, path, i, t);
      assert from <= i < i + 1 && t in transports[path[i]] && FairyAt(transports, path, i, t);
    }
    if FairyRingUsed(transports, path, from, i + 1) && !usesFairyRing {
      var j, t :| from <= j < i + 1 && 0 <= j < |path| - 1 && path[j] in transports && t in transports[path[j]]
        && FairyAt(transports, path, j, t);
      assert j == i && FairyAt(transports, path, i, t);
    }
    if teleport.None? {
      if teleport'.Some? {
        assert forall j | from <= j < i :: !TeleportItemUsedAt(transports, path, j);
        assert UsedAt(transports, path, i, teleport'.value);
        assert TeleportAt(transports, path, i, teleport'.value) && TeleportItemUsedAt(transports, path, i);
      } else {
        assert !TeleportItemUsedAt(transports, path, i);
      }
    } else {
      var j :| from <= j < i && UsedAt(transports, path, j, teleport.value)
        && teleport.value.transportType == Some(TELEPORTATION_ITEM)
        && forall k | from <= k < j :: !TeleportItemUsedAt(transports, path, k);
      assert TeleportItemUsedAt(transports, path, j);
    }
  }
}
