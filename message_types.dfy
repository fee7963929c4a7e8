/**
 * MessageProtocol's type tables: the external (wire) message types with
 * their category, priority and name registry, and the category and
 * priority of internal message types, which are fixed by the hundreds digit
 * of the numeric type value.
 */
module MessageTypes {
  import opened Wrappers
  import opened Bits

  // ExternalMessageType, by its index in the registry's name table.
  const STATUS_UPDATE := 0
  const STATUS_MESSAGE := 1
  const GET_STATUS := 2
  const GET_ASSETS := 3
  const ASSET_RESPONSE := 4
  const SESSION_UPDATE := 5
  /** The INVALID enumerator: any value outside 0..5 behaves the same here. */
  const INVALID := -1

  /** isValidExternalMessageType: one of the six registered types. */
  predicate IsValidExternal(t: int)
  {
    STATUS_UPDATE <= t <= SESSION_UPDATE
  }

  /** The registry's enumToStringArray. */
  const EXTERNAL_NAMES: seq<string> :=
    ["StatusUpdate", "StatusMessage", "GetStatus", "GetAssets", "AssetResponse", "SessionUpdate"]

  datatype ExternalCategory = Status | Assets | Session | UnknownExternal

  datatype Priority = High | Normal | Low

  /** getExternalMessageCategory. */
  function ExternalCategoryOf(t: int): (r: ExternalCategory)
    ensures r == Status <==> t in {STATUS_UPDATE, STATUS_MESSAGE, GET_STATUS}
    ensures r == Assets <==> t in {GET_ASSETS, ASSET_RESPONSE}
    ensures r == Session <==> t == SESSION_UPDATE
  {
    if t == STATUS_UPDATE || t == STATUS_MESSAGE || t == GET_STATUS then Status
    else if t == GET_ASSETS || t == ASSET_RESPONSE then Assets
    else if t == SESSION_UPDATE then Session
    else UnknownExternal
  }

  /** getExternalMessagePriority. */
  function ExternalPriorityOf(t: int): (r: Priority)
    ensures r == High <==> t in {STATUS_UPDATE, SESSION_UPDATE}
    ensures r == Low <==> t in {GET_ASSETS, ASSET_RESPONSE}
  {
    if t == STATUS_UPDATE || t == SESSION_UPDATE then High
    else if t == STATUS_MESSAGE || t == GET_STATUS then Normal
    else if t == GET_ASSETS || t == ASSET_RESPONSE then Low
    else Normal
  }

  /** Only valid types have a category, and every asset message is low priority. */
  lemma ExternalTablesAgree(t: int)
    ensures ExternalCategoryOf(t) != UnknownExternal <==> IsValidExternal(t)
    ensures ExternalCategoryOf(t) == Assets <==> ExternalPriorityOf(t) == Low
    ensures !IsValidExternal(t) ==> ExternalPriorityOf(t) == Normal
  {
  }

  /** ExternalMessageTypeRegistry::getString: the name of a registered type, "INVALID" outside 0..5. */
  function ExternalTypeToString(t: int): (r: string)
    ensures IsValidExternal(t) ==> r == EXTERNAL_NAMES[t]
    ensures !IsValidExternal(t) ==> r == "INVALID"
  {
    if 0 <= t < 6 then EXTERNAL_NAMES[t] else "INVALID"
  }

  /** The registry's stringToEnumMap. */
  const EXTERNAL_BY_NAME: map<string, int> := map[
    "StatusUpdate" := STATUS_UPDATE, "StatusMessage" := STATUS_MESSAGE, "GetStatus" := GET_STATUS,
    "GetAssets" := GET_ASSETS, "AssetResponse" := ASSET_RESPONSE, "SessionUpdate" := SESSION_UPDATE]

  /** stringToExternalMessageType / getMessageType: a null or unknown string gives INVALID. */
  function StringToExternalType(str: Option<string>): (r: int)
    ensures r == INVALID || IsValidExternal(r)
    ensures str.None? ==> r == INVALID
    ensures str.Some? && str.value in EXTERNAL_BY_NAME ==> r == EXTERNAL_BY_NAME[str.value]
    ensures str.Some? && str.value !in EXTERNAL_BY_NAME ==> r == INVALID
  {
    if str.None? then INVALID
    else if str.value in EXTERNAL_BY_NAME then EXTERNAL_BY_NAME[str.value]
    else INVALID
  }

  /** The two tables of the registry are inverse on the six types. */
  lemma ExternalNamesRoundTrip(t: int)
    requires IsValidExternal(t)
    ensures StringToExternalType(Some(ExternalTypeToString(t))) == t
  {
    assert EXTERNAL_NAMES[t] in EXTERNAL_BY_NAME && EXTERNAL_BY_NAME[EXTERNAL_NAMES[t]] == t;
  }

  /** A string that maps to a valid type is that type's name. */
  lemma ExternalStringsRoundTrip(s: string)
    requires StringToExternalType(Some(s)) != INVALID
    ensures ExternalTypeToString(StringToExternalType(Some(s))) == s
  {
    var t := EXTERNAL_BY_NAME[s];
    assert s == EXTERNAL_NAMES[t];
  }

  // ---------------------------------------------------------------------------
  // Internal message types
  // ---------------------------------------------------------------------------

  datatype InternalCategory = Network | UI | FileSystem | Audio | Monitoring | Hardware | CoreComm | UnknownInternal

  /** The category of each hundreds digit from 1 to 7. */
  const CATEGORY_BY_HUNDREDS: seq<InternalCategory> :=
    [UnknownInternal, Network, UI, FileSystem, Audio, Monitoring, Hardware, CoreComm]

  /** getInternalMessageCategory: 100-199 network, 200s UI, 300s file system, 400s audio, 500s monitoring, 600s hardware, 700s core communication. */
  function InternalCategoryOf(value: uint16): (r: InternalCategory)
    ensures 100 <= value < 800 ==> r == CATEGORY_BY_HUNDREDS[value / 100]
    ensures !(100 <= value < 800) ==> r == UnknownInternal
  {
    if value >= 100 && value < 200 then Network
    else if value >= 200 && value < 300 then UI
    else if value >= 300 && value < 400 then FileSystem
    else if value >= 400 && value < 500 then Audio
    else if value >= 500 && value < 600 then Monitoring
    else if value >= 600 && value < 700 then Hardware
    else if value >= 700 && value < 800 then CoreComm
    else UnknownInternal
  }

  /** Two values in the same hundred share a category; values in different hundreds below 800 do not. */
  lemma InternalCategoryByHundreds(a: uint16, b: uint16)
    requires 100 <= a < 800 && 100 <= b < 800
    ensures InternalCategoryOf(a) == InternalCategoryOf(b) <==> a / 100 == b / 100
  {
  }

  /** getInternalMessagePriority: from the category; UI, core communication and audio are high. */
  function InternalPriorityOf(value: uint16): (r: Priority)
    ensures r == High <==> InternalCategoryOf(value) in {UI, CoreComm, Audio}
    ensures r == Low <==> InternalCategoryOf(value) in {Monitoring, FileSystem}
  {
    match InternalCategoryOf(value)
    case UI => High
    case CoreComm => High
    case Audio => High
    case Network => Normal
    case Hardware => Normal
    case Monitoring => Low
    case FileSystem => Low
    case UnknownInternal => Normal
  }

  /** The priority in terms of the value alone. */
  lemma InternalPriorityRanges(value: uint16)
    ensures InternalPriorityOf(value) == High <==>
      (200 <= value < 300 || 400 <= value < 500 || 700 <= value < 800)
    ensures InternalPriorityOf(value) == Low <==> (300 <= value < 400 || 500 <= value < 600)
  {
  }
}
