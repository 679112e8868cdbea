/**
 * `TransportRecord`: one data row of a transport TSV file, as a map from column name to cell text.
 * The record keeps an unmodifiable copy of the map it is given, so it is a value.
 */
module TransportRecords {
  import opened Wrappers

  datatype TransportRecord = TransportRecord(fields: map<string, string>)

  /** The standard column names of the transport files (`TransportRecord.Fields`). */
  datatype Field =
    | ORIGIN | DESTINATION | SKILLS | ITEMS | QUESTS | DURATION | DISPLAY_INFO
    | CONSUMABLE | WILDERNESS_LEVEL | OBJECT_INFO | VARBITS | VAR_PLAYERS

  function FieldName(f: Field): string {
    match f
    case ORIGIN => "Origin"
    case DESTINATION => "Destination"
    case SKILLS => "Skills"
    case ITEMS => "Items"
    case QUESTS => "Quests"
    case DURATION => "Duration"
    case DISPLAY_INFO => "Display info"
    case CONSUMABLE => "Consumable"
    case WILDERNESS_LEVEL => "Wilderness level"
    case OBJECT_INFO => "menuOption menuTarget objectID"
    case VARBITS => "Varbits"
    case VAR_PLAYERS => "VarPlayers"
  }

  /** Each standard field has its own column. */
  lemma FieldNamesDistinct(f: Field, g: Field)
    ensures FieldName(f) == FieldName(g) <==> f == g
  {
  }

  /** `new TransportRecord(fields)`: later changes to the caller's map do not show through. */
  function Of(fields: map<string, string>): (r: TransportRecord)
    ensures r.fields == fields
  {
    TransportRecord(fields)
  }

  /** `get(fieldName)`, with `None` for `null`. */
  function Get(r: TransportRecord, fieldName: string): (v: Option<string>)
    ensures v.Some? <==> fieldName in r.fields
    ensures v.Some? ==> v.value == r.fields[fieldName]
  {
    if fieldName in r.fields then Some(r.fields[fieldName]) else None
  }

  /** `getOrDefault(fieldName, defaultValue)`: an empty cell counts as missing. */
  function GetOrDefault(r: TransportRecord, fieldName: string, defaultValue: string): string {
    var value := Get(r, fieldName);
    if value.None? || value.value == "" then defaultValue else value.value
  }

  /** `has(fieldName)`: present and not empty. */
  predicate Has(r: TransportRecord, fieldName: string) {
    var value := Get(r, fieldName);
    value.Some? && value.value != ""
  }

  /** `hasKey(fieldName)`: present, possibly empty. */
  predicate HasKey(r: TransportRecord, fieldName: string) {
    fieldName in r.fields
  }

  /** The named getters `getOrigin()` … `getVarPlayers()`: `get` of the field's column name. */
  function GetField(r: TransportRecord, f: Field): (v: Option<string>)
    ensures v == Get(r, FieldName(f))
  {
    var name := FieldName(f);
    if name in r.fields then Some(r.fields[name]) else None
  }

  /**
   * `getOrDefault` gives the cell exactly when `has` holds and the default otherwise; `has` is
   * `hasKey` with a non-empty cell.
   */
  lemma GetOrDefaultAgreesWithHas(r: TransportRecord, fieldName: string, defaultValue: string)
    ensures Has(r, fieldName) ==> GetOrDefault(r, fieldName, defaultValue) == r.fields[fieldName]
    ensures !Has(r, fieldName) ==> GetOrDefault(r, fieldName, defaultValue) == defaultValue
    ensures Has(r, fieldName) <==> HasKey(r, fieldName) && r.fields[fieldName] != ""
  {
  }
}
