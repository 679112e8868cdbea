/**
 * The older `shortestpath.TransportType` enum, still used by the legacy transport classes: its
 * constants and the static `isTeleport` and `isMembersOnly` classifications.
 */
module LegacyTransportTypes {
  import opened Wrappers

  datatype LegacyTransportType =
    | TRANSPORT | AGILITY_SHORTCUT | GRAPPLE_SHORTCUT | BOAT | CANOE | CHARTER_SHIP | SHIP
    | FAIRY_RING | GNOME_GLIDER | HOT_AIR_BALLOON | MINECART | QUETZAL | SPIRIT_TREE
    | TELEPORTATION_ITEM | TELEPORTATION_LEVER | TELEPORTATION_MINIGAME | TELEPORTATION_PORTAL
    | TELEPORTATION_SPELL | WILDERNESS_OBELISK

  /** The types that are available only on members' worlds. */
  const MembersOnlyTypes: set<LegacyTransportType> := {
    AGILITY_SHORTCUT, GRAPPLE_SHORTCUT, BOAT, CHARTER_SHIP, FAIRY_RING, GNOME_GLIDER,
    HOT_AIR_BALLOON, MINECART, QUETZAL, SPIRIT_TREE, TELEPORTATION_LEVER, WILDERNESS_OBELISK}

  /** `isTeleport`: items, minigame teleports and spells; `None` is Java's `null`. */
  function IsTeleport(t: Option<LegacyTransportType>): (b: bool)
    ensures b <==> t in {Some(TELEPORTATION_ITEM), Some(TELEPORTATION_MINIGAME), Some(TELEPORTATION_SPELL)}
  {
    if t.None? then false
    else
      match t.value
      case TELEPORTATION_ITEM => true
      case TELEPORTATION_MINIGAME => true
      case TELEPORTATION_SPELL => true
      case _ => false
  }

  /** `isMembersOnly`: the twelve listed types; `None` is Java's `null`. */
  function IsMembersOnly(t: Option<LegacyTransportType>): (b: bool)
    ensures b <==> t.Some? && t.value in MembersOnlyTypes
    ensures |MembersOnlyTypes| == 12
  {
    if t.None? then false
    else
      match t.value
      case AGILITY_SHORTCUT => true
      case GRAPPLE_SHORTCUT => true
      case BOAT => true
      case CHARTER_SHIP => true
      case FAIRY_RING => true
      case GNOME_GLIDER => true
      case HOT_AIR_BALLOON => true
      case MINECART => true
      case QUETZAL => true
      case SPIRIT_TREE => true
      case TELEPORTATION_LEVER => true
      case WILDERNESS_OBELISK => true
      case _ => false
  }

  /** The two classifications are disjoint, and `TRANSPORT` is in neither. */
  lemma TeleportsAreNotMembersOnly(t: Option<LegacyTransportType>)
    ensures !(IsTeleport(t) && IsMembersOnly(t))
    ensures !IsTeleport(Some(TRANSPORT)) && !IsMembersOnly(Some(TRANSPORT))
  {
  }
}
