/** The current `TransportType` enum: its resource table, radius thresholds and static `isTeleport`. */
module TransportTypes {
  import opened Wrappers
  import opened JavaStrings

  datatype TransportType =
    | TRANSPORT | AGILITY_SHORTCUT | GRAPPLE_SHORTCUT | BOAT | CANOE | CHARTER_SHIP | SHIP
    | FAIRY_RING | GNOME_GLIDER | HOT_AIR_BALLOON | MAGIC_CARPET | MAGIC_MUSHTREE | MINECART
    | QUETZAL | SEASONAL_TRANSPORTS | SPIRIT_TREE | TELEPORTATION_BOX | TELEPORTATION_ITEM
    | TELEPORTATION_LEVER | TELEPORTATION_MINIGAME | TELEPORTATION_PORTAL
    | TELEPORTATION_PORTAL_POH | TELEPORTATION_SPELL | WILDERNESS_OBELISK

  /** `TransportType.values()`, in declaration order. */
  const AllTypes: seq<TransportType> := [
    TRANSPORT, AGILITY_SHORTCUT, GRAPPLE_SHORTCUT, BOAT, CANOE, CHARTER_SHIP, SHIP,
    FAIRY_RING, GNOME_GLIDER, HOT_AIR_BALLOON, MAGIC_CARPET, MAGIC_MUSHTREE, MINECART,
    QUETZAL, SEASONAL_TRANSPORTS, SPIRIT_TREE, TELEPORTATION_BOX, TELEPORTATION_ITEM,
    TELEPORTATION_LEVER, TELEPORTATION_MINIGAME, TELEPORTATION_PORTAL,
    TELEPORTATION_PORTAL_POH, TELEPORTATION_SPELL, WILDERNESS_OBELISK]

  /** Every constant is listed exactly once. */
  lemma AllTypesListsEachOnce(t: TransportType)
    ensures t in AllTypes
    ensures |AllTypes| == 24
    ensures forall i, j :: 0 <= i < j < |AllTypes| ==> AllTypes[i] != AllTypes[j]
  {
  }

  /** The file-name stem under /transports/ of every type that has a resource file. */
  function FileStem(t: TransportType): string
    requires t != GRAPPLE_SHORTCUT
  {
    match t
    case TRANSPORT => "transports"
    case AGILITY_SHORTCUT => "agility_shortcuts"
    case BOAT => "boats"
    case CANOE => "canoes"
    case CHARTER_SHIP => "charter_ships"
    case SHIP => "ships"
    case FAIRY_RING => "fairy_rings"
    case GNOME_GLIDER => "gnome_gliders"
    case HOT_AIR_BALLOON => "hot_air_balloons"
    case MAGIC_CARPET => "magic_carpets"
    case MAGIC_MUSHTREE => "magic_mushtrees"
    case MINECART => "minecarts"
    case QUETZAL => "quetzals"
    case SEASONAL_TRANSPORTS => "seasonal_transports"
    case SPIRIT_TREE => "spirit_trees"
    case TELEPORTATION_BOX => "teleportation_boxes"
    case TELEPORTATION_ITEM => "teleportation_items"
    case TELEPORTATION_LEVER => "teleportation_levers"
    case TELEPORTATION_MINIGAME => "teleportation_minigames"
    case TELEPORTATION_PORTAL => "teleportation_portals"
    case TELEPORTATION_PORTAL_POH => "teleportation_portals_poh"
    case TELEPORTATION_SPELL => "teleportation_spells"
    case WILDERNESS_OBELISK => "wilderness_obelisks"
  }

  /** The resource file of each type; `GRAPPLE_SHORTCUT` has none. */
  function ResourcePath(t: TransportType): (path: Option<string>)
    ensures path.None? <==> t == GRAPPLE_SHORTCUT
    ensures path.Some? ==> StartsWith(path.value, "/transports/") && EndsWith(path.value, ".tsv")
  {
    if t == GRAPPLE_SHORTCUT then None else Some("/transports/" + FileStem(t) + ".tsv")
  }

  predicate HasResourcePath(t: TransportType) { ResourcePath(t).Some? }

  /**
   * The radius below which origin/destination pairs of one type are not merged; the one-argument
   * enum constructor means no threshold.
   */
  function RadiusThreshold(t: TransportType): (r: Option<int>)
    ensures r.Some? <==> t in {GNOME_GLIDER, HOT_AIR_BALLOON, MAGIC_MUSHTREE, SPIRIT_TREE}
    ensures r.Some? ==> 5 <= r.value <= 7
  {
    match t
    case GNOME_GLIDER => Some(6)
    case HOT_AIR_BALLOON => Some(7)
    case MAGIC_MUSHTREE => Some(5)
    case SPIRIT_TREE => Some(5)
    case _ => None
  }

  predicate HasRadiusThreshold(t: TransportType) { RadiusThreshold(t).Some? }

  /** The static `isTeleport`; `None` is Java's `null`. */
  function IsTeleport(t: Option<TransportType>): (b: bool)
    ensures b <==> t in {Some(TELEPORTATION_ITEM), Some(TELEPORTATION_MINIGAME), Some(TELEPORTATION_SPELL)}
  {
    match t
    case None => false
    case Some(TELEPORTATION_ITEM) => true
    case Some(TELEPORTATION_MINIGAME) => true
    case Some(TELEPORTATION_SPELL) => true
    case Some(_) => false
  }

  /** Teleport types are loaded from a file and are never merged by radius. */
  lemma TeleportsHaveFilesAndNoRadius(t: TransportType)
    requires IsTeleport(Some(t))
    ensures HasResourcePath(t) && !HasRadiusThreshold(t)
  {
  }
}
