/**
 * `TransportTypeConfig`: the per-type enabled flags and extra costs, read from the plugin
 * configuration by `refresh` and changed at run time by `setEnabled` and `disableUnless`.
 */
module TransportTypeConfigs {
  import opened Wrappers
  import opened TransportTypes

  /** The `useTeleportationItems` setting (the constants the plugin refers to). */
  datatype TeleportationItem =
    | ALL | ALL_NON_CONSUMABLE | UNLOCKED | UNLOCKED_NON_CONSUMABLE
    | INVENTORY | INVENTORY_NON_CONSUMABLE | INVENTORY_AND_BANK
    | INVENTORY_AND_BANK_NON_CONSUMABLE | NONE

  /**
   * What the configuration answers for each type, after the plugin's overrides.
   * `enabledGetter(t)` is `None` when `t` has no enabled getter and `costGetter(t)` is `None`
   * when it has no cost getter.
   */
  datatype Settings = Settings(
    useTeleportationItems: TeleportationItem,
    enabledGetter: TransportType -> Option<bool>,
    costGetter: TransportType -> Option<int>)

  /** `getEnabledState`, with the cached teleportation-item setting passed in. */
  function EnabledState(settings: Settings, teleportationItems: TeleportationItem, t: TransportType): (b: bool)
    ensures t == TELEPORTATION_ITEM || t == TELEPORTATION_BOX ==> (b <==> teleportationItems != NONE)
    ensures t != TELEPORTATION_ITEM && t != TELEPORTATION_BOX && settings.enabledGetter(t).None? ==> b
    ensures t != TELEPORTATION_ITEM && t != TELEPORTATION_BOX && settings.enabledGetter(t).Some? ==>
      b == settings.enabledGetter(t).value
  {
    if t == TELEPORTATION_ITEM || t == TELEPORTATION_BOX then
      teleportationItems != NONE
    else
      match settings.enabledGetter(t)
      case None => true
      case Some(configValue) => configValue
  }

  /** `getCostThreshold`: a type without a cost getter costs nothing extra. */
  function CostThreshold(settings: Settings, t: TransportType): (cost: int)
    ensures settings.costGetter(t).None? ==> cost == 0
    ensures settings.costGetter(t).Some? ==> cost == settings.costGetter(t).value
  {
    match settings.costGetter(t)
    case None => 0
    case Some(configValue) => configValue
  }

  /**
   * Both teleport-item types are switched by the one setting, whatever their own getters say:
   * the two always agree, and `NONE` is the only value that turns them off.
   */
  lemma TeleportItemTypesFollowSetting(settings: Settings, teleportationItems: TeleportationItem)
    ensures EnabledState(settings, teleportationItems, TELEPORTATION_ITEM)
      == EnabledState(settings, teleportationItems, TELEPORTATION_BOX)
    ensures !EnabledState(settings, teleportationItems, TELEPORTATION_ITEM) <==> teleportationItems == NONE
  {
  }

  class TransportTypeConfig {
    var enabledStates: map<TransportType, bool>
    var costThresholds: map<TransportType, int>
    const settings: Settings
    var teleportationItemSetting: TeleportationItem

    /** `isEnabled`: an unmapped type is enabled. */
    function IsEnabled(t: TransportType): (b: bool)
      reads this
      ensures t !in enabledStates ==> b
      ensures t in enabledStates ==> b == enabledStates[t]
    {
      if t in enabledStates then enabledStates[t] else true
    }

    /** `getCost`: an unmapped type costs nothing extra. */
    function GetCost(t: TransportType): (cost: int)
      reads this
      ensures t !in costThresholds ==> cost == 0
      ensures t in costThresholds ==> cost == costThresholds[t]
    {
      if t in costThresholds then costThresholds[t] else 0
    }

    /** Every type holds the state and cost the configuration gives it. */
    ghost predicate Refreshed()
      reads this
    {
      forall t: TransportType ::
        IsEnabled(t) == EnabledState(settings, teleportationItemSetting, t)
        && GetCost(t) == CostThreshold(settings, t)
    }

    constructor (settings: Settings)
      ensures this.settings == settings
      ensures teleportationItemSetting == settings.useTeleportationItems
      ensures Refreshed()
      ensures forall t: TransportType :: t in enabledStates && t in costThresholds
    {
      this.settings := settings;
      enabledStates := map[];
      costThresholds := map[];
      teleportationItemSetting := settings.useTeleportationItems;
      new;
      Refresh();
    }

    /** `refresh`: re-reads every type, undoing any run-time `setEnabled`/`disableUnless`. */
    method Refresh()
      modifies this
      ensures teleportationItemSetting == settings.useTeleportationItems
      ensures Refreshed()
      ensures forall t: TransportType :: t in enabledStates && t in costThresholds
    {
      teleportationItemSetting := settings.useTeleportationItems;
      for i := 0 to |AllTypes|
        invariant teleportationItemSetting == settings.useTeleportationItems
        invariant forall j :: 0 <= j < i ==>
          AllTypes[j] in enabledStates && AllTypes[j] in costThresholds
          && enabledStates[AllTypes[j]] == EnabledState(settings, teleportationItemSetting, AllTypes[j])
          && costThresholds[AllTypes[j]] == CostThreshold(settings, AllTypes[j])
      {
        var t := AllTypes[i];
        enabledStates := enabledStates[t := EnabledState(settings, teleportationItemSetting, t)];
        costThresholds := costThresholds[t := CostThreshold(settings, t)];
      }
      forall t: TransportType
        ensures t in enabledStates && t in costThresholds
        ensures IsEnabled(t) == EnabledState(settings, teleportationItemSetting, t)
        ensures GetCost(t) == CostThreshold(settings, t)
      {
        AllTypesListsEachOnce(t);
      }
    }

    /** `setEnabled`: only `t`'s flag changes. */
    method SetEnabled(t: TransportType, enabled: bool)
      modifies this
      ensures enabledStates == old(enabledStates)[t := enabled]
      ensures IsEnabled(t) == enabled
      ensures unchanged(this`costThresholds, this`teleportationItemSetting)
    {
      enabledStates := enabledStates[t := enabled];
    }

    /** `disableUnless`: a true condition changes nothing; a false one disables `t` alone. */
    method DisableUnless(t: TransportType, condition: bool)
      modifies this
      ensures condition ==> enabledStates == old(enabledStates)
      ensures !condition ==> enabledStates == old(enabledStates)[t := false]
      ensures IsEnabled(t) == (old(IsEnabled(t)) && condition)
      ensures unchanged(this`costThresholds, this`teleportationItemSetting)
    {
      if !condition {
        enabledStates := enabledStates[t := false];
      }
    }
  }
}
