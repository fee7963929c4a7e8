/**
 * The simple `Message` struct of the serial engine: its nine types and
 * their protocol names, the factories, and the direct JSON mapping of
 * `toJson` / `fromJson`.  The payload union is modelled as three separate
 * records, of which the message's type selects the one that is read and
 * written; fixed `char[N]` buffers filled with `strncpy(dst, src, N - 1)`
 * keep at most N - 1 characters, up to the first NUL.
 */
module Messages {
  import opened Wrappers
  import opened Bits
  import opened Json

  // Message::Type, in declaration order.
  const INVALID := 0
  const AUDIO_STATUS := 1
  const VOLUME_CHANGE := 2
  const MUTE_TOGGLE := 3
  const ASSET_REQUEST := 4
  const ASSET_RESPONSE := 5
  const GET_STATUS := 6
  const SET_VOLUME := 7
  const SET_DEFAULT_DEVICE := 8

  predicate IsType(t: int) { INVALID <= t <= SET_DEFAULT_DEVICE }

  /** The protocol name of each type, in enum order. */
  const TYPE_NAMES: seq<string> := ["INVALID", "STATUS_MESSAGE", "VOLUME_CHANGE", "MUTE_TOGGLE", "GET_ASSETS",
    "ASSET_RESPONSE", "GET_STATUS", "SET_VOLUME", "SET_DEFAULT_DEVICE"]

  /** typeToString: the protocol name, "UNKNOWN" for a value outside the enumeration. */
  function TypeToString(t: int): (r: string)
    ensures IsType(t) ==> r == TYPE_NAMES[t]
    ensures !IsType(t) ==> r == "UNKNOWN"
  {
    if t == INVALID then "INVALID"
    else if t == AUDIO_STATUS then "STATUS_MESSAGE"
    else if t == VOLUME_CHANGE then "VOLUME_CHANGE"
    else if t == MUTE_TOGGLE then "MUTE_TOGGLE"
    else if t == ASSET_REQUEST then "GET_ASSETS"
    else if t == ASSET_RESPONSE then "ASSET_RESPONSE"
    else if t == GET_STATUS then "GET_STATUS"
    else if t == SET_VOLUME then "SET_VOLUME"
    else if t == SET_DEFAULT_DEVICE then "SET_DEFAULT_DEVICE"
    else "UNKNOWN"
  }

  /** stringToType: the type with that protocol name; any other string, "INVALID" included, gives INVALID. */
  function StringToType(s: string): (r: int)
    ensures IsType(r)
    ensures r != INVALID ==> TYPE_NAMES[r] == s
  {
    if s == "STATUS_MESSAGE" then AUDIO_STATUS
    else if s == "VOLUME_CHANGE" then VOLUME_CHANGE
    else if s == "MUTE_TOGGLE" then MUTE_TOGGLE
    else if s == "GET_ASSETS" then ASSET_REQUEST
    else if s == "ASSET_RESPONSE" then ASSET_RESPONSE
    else if s == "GET_STATUS" then GET_STATUS
    else if s == "SET_VOLUME" then SET_VOLUME
    else if s == "SET_DEFAULT_DEVICE" then SET_DEFAULT_DEVICE
    else INVALID
  }

  /** Every type, INVALID included, survives the trip through its name. */
  lemma TypeNameRoundTrip(t: int)
    requires IsType(t)
    ensures StringToType(TypeToString(t)) == t
  {
  }

  /** A string is read as INVALID exactly when it names none of the eight real types. */
  lemma UnknownNameIsInvalid(s: string)
    ensures StringToType(s) == INVALID <==> forall t :: AUDIO_STATUS <= t <= SET_DEFAULT_DEVICE ==> TYPE_NAMES[t] != s
  {
    if StringToType(s) == INVALID {
      forall t | AUDIO_STATUS <= t <= SET_DEFAULT_DEVICE
        ensures TYPE_NAMES[t] != s
      {
        TypeNameRoundTrip(t);
      }
    }
  }

  // ---------------------------------------------------------------------------
  // The message record
  // ---------------------------------------------------------------------------

  // Buffer sizes of the payload structs.
  const PROCESS_NAME_SIZE := 64
  const ERROR_MESSAGE_SIZE := 128
  const ASSET_DATA_SIZE := 2048
  const FORMAT_SIZE := 16
  const TARGET_SIZE := 64
  /** The audio payload's name buffers, sized like the session and default-device names. */
  const AUDIO_NAME_SIZE := 64
  const DEFAULT_DEVICE_NAME_SIZE := 128

  /** The audio payload fields `toJson` and `fromJson` use. */
  datatype AudioFields = AudioFields(
    processName: string, volume: int32, isMuted: bool, hasDefaultDevice: bool,
    defaultDeviceName: string, defaultVolume: int32, defaultIsMuted: bool, activeSessionCount: int32)

  /** AssetData. */
  datatype AssetFields = AssetFields(
    processName: string, success: bool, errorMessage: string, assetDataBase64: string,
    width: int32, height: int32, format: string)

  /** VolumeData. */
  datatype VolumeFields = VolumeFields(processName: string, volume: int32, target: string)

  // The zero-filled payloads memset leaves.
  const NO_AUDIO := AudioFields("", 0, false, false, "", 0, false, 0)
  const NO_ASSET := AssetFields("", false, "", "", 0, 0, "")
  const NO_VOLUME := VolumeFields("", 0, "")

  datatype Message = Message(
    msgType: int32, deviceId: string, requestId: string, timestamp: uint32,
    audio: AudioFields, asset: AssetFields, volume: VolumeFields)

  /** Message(): INVALID, timestamp 0, empty ids and a zeroed payload. */
  const DEFAULT_MESSAGE := Message(INVALID, "", "", 0, NO_AUDIO, NO_ASSET, NO_VOLUME)

  /** isValid. */
  predicate IsValid(m: Message) { m.msgType != INVALID }

  /** The characters a C string reads: everything before the first NUL. */
  function BeforeNul(s: string): (r: string)
    ensures |r| <= |s| && r == s[..|r|]
    ensures forall i :: 0 <= i < |r| ==> r[i] != '\0'
    ensures |r| < |s| ==> s[|r|] == '\0'
  {
    if s == [] || s[0] == '\0' then [] else [s[0]] + BeforeNul(s[1..])
  }

  /** A string a `char[size]` buffer holds unchanged. */
  predicate Fits(s: string, size: nat)
  {
    |s| < size && forall i :: 0 <= i < |s| ==> s[i] != '\0'
  }

  /**
   * `strncpy(dst, src, size - 1)` into a zeroed `char[size]`, read back as a
   * C string: at most size - 1 characters of `src`, stopping at a NUL.
   */
  function CopyBounded(src: string, size: nat): (r: string)
    requires size >= 1
    ensures Fits(r, size)
    ensures |r| <= |src| && r == src[..|r|]
    ensures Fits(src, size) <==> r == src
  {
    var c := BeforeNul(src);
    var r := if |c| < size then c else c[..size - 1];
    assert Fits(src, size) ==> c == src by {
      if Fits(src, size) && |c| < |src| {
        assert false;
      }
    }
    r
  }

  // ---------------------------------------------------------------------------
  // Factories (the configured device id, the generated request id and the clock are parameters)
  // ---------------------------------------------------------------------------

  /** The device id the factories use: the given one, or the configured one when it is empty. */
  function DeviceIdOr(deviceId: string, configId: string): (r: string)
    ensures deviceId != "" ==> r == deviceId
    ensures deviceId == "" ==> r == configId
  {
    if deviceId == [] then configId else deviceId
  }

  function CreateStatusRequest(deviceId: string, configId: string, requestId: string, now: uint32): (r: Message)
    ensures IsValid(r) && r.msgType == GET_STATUS
    ensures r.deviceId == DeviceIdOr(deviceId, configId) && r.requestId == requestId && r.timestamp == now
  {
    DEFAULT_MESSAGE.(msgType := GET_STATUS, deviceId := DeviceIdOr(deviceId, configId),
                     requestId := requestId, timestamp := now)
  }

  function CreateAssetRequest(processName: string, deviceId: string, configId: string, requestId: string,
                              now: uint32): (r: Message)
    ensures IsValid(r) && r.msgType == ASSET_REQUEST
    ensures r.deviceId == DeviceIdOr(deviceId, configId) && r.requestId == requestId && r.timestamp == now
    ensures Fits(r.asset.processName, PROCESS_NAME_SIZE)
    ensures |r.asset.processName| <= |processName| && r.asset.processName == processName[..|r.asset.processName|]
  {
    DEFAULT_MESSAGE.(msgType := ASSET_REQUEST, deviceId := DeviceIdOr(deviceId, configId),
                     requestId := requestId, timestamp := now,
                     asset := NO_ASSET.(processName := CopyBounded(processName, PROCESS_NAME_SIZE)))
  }

  function CreateVolumeChange(processName: string, volume: int32, deviceId: string, configId: string,
                              requestId: string, now: uint32): (r: Message)
    ensures IsValid(r) && r.msgType == SET_VOLUME
    ensures r.deviceId == DeviceIdOr(deviceId, configId) && r.requestId == requestId && r.timestamp == now
    ensures r.volume.volume == volume && r.volume.target == ""
    ensures Fits(r.volume.processName, PROCESS_NAME_SIZE)
    ensures |r.volume.processName| <= |processName| && r.volume.processName == processName[..|r.volume.processName|]
  {
    DEFAULT_MESSAGE.(msgType := SET_VOLUME, deviceId := DeviceIdOr(deviceId, configId),
                     requestId := requestId, timestamp := now,
                     volume := NO_VOLUME.(processName := CopyBounded(processName, PROCESS_NAME_SIZE), volume := volume))
  }

  function CreateAudioStatus(audio: AudioFields, deviceId: string, configId: string, requestId: string,
                             now: uint32): (r: Message)
    ensures IsValid(r) && r.msgType == AUDIO_STATUS && r.audio == audio
    ensures r.deviceId == DeviceIdOr(deviceId, configId) && r.requestId == requestId && r.timestamp == now
  {
    DEFAULT_MESSAGE.(msgType := AUDIO_STATUS, deviceId := DeviceIdOr(deviceId, configId),
                     requestId := requestId, timestamp := now, audio := audio)
  }

  /** createAssetResponse: the request id is the one being answered. */
  function CreateAssetResponse(asset: AssetFields, requestId: string, deviceId: string, configId: string,
                               now: uint32): (r: Message)
    ensures IsValid(r) && r.msgType == ASSET_RESPONSE && r.asset == asset
    ensures r.deviceId == DeviceIdOr(deviceId, configId) && r.requestId == requestId && r.timestamp == now
  {
    DEFAULT_MESSAGE.(msgType := ASSET_RESPONSE, deviceId := DeviceIdOr(deviceId, configId),
                     requestId := requestId, timestamp := now, asset := asset)
  }

  // ---------------------------------------------------------------------------
  // toJson / fromJson
  // ---------------------------------------------------------------------------

  /** The four members every message has. */
  function CoreJson(m: Message): map<string, Json>
  {
    map["messageType" := JInt(m.msgType), "deviceId" := JString(m.deviceId),
        "requestId" := JString(m.requestId), "timestamp" := JInt(m.timestamp)]
  }

  function AudioJson(a: AudioFields): map<string, Json>
  {
    map["processName" := JString(a.processName), "volume" := JInt(a.volume), "isMuted" := JBool(a.isMuted),
        "hasDefaultDevice" := JBool(a.hasDefaultDevice), "defaultDeviceName" := JString(a.defaultDeviceName),
        "defaultVolume" := JInt(a.defaultVolume), "defaultIsMuted" := JBool(a.defaultIsMuted),
        "activeSessionCount" := JInt(a.activeSessionCount)]
  }

  function AssetResponseJson(a: AssetFields): map<string, Json>
  {
    map["processName" := JString(a.processName), "success" := JBool(a.success),
        "errorMessage" := JString(a.errorMessage), "assetData" := JString(a.assetDataBase64),
        "width" := JInt(a.width), "height" := JInt(a.height), "format" := JString(a.format)]
  }

  function VolumeJson(v: VolumeFields): map<string, Json>
  {
    map["processName" := JString(v.processName), "volume" := JInt(v.volume), "target" := JString(v.target)]
  }

  /** The type-specific members: none for the command types and for an unknown type. */
  function PayloadJson(m: Message): map<string, Json>
  {
    if m.msgType == AUDIO_STATUS then AudioJson(m.audio)
    else if m.msgType == ASSET_REQUEST then map["processName" := JString(m.asset.processName)]
    else if m.msgType == ASSET_RESPONSE then AssetResponseJson(m.asset)
    else if m.msgType == SET_VOLUME || m.msgType == VOLUME_CHANGE then VolumeJson(m.volume)
    else map[]
  }

  /** The core members are exactly the four header keys. */
  lemma CoreKeys(m: Message)
    ensures forall k :: k in CoreJson(m) ==> k in CORE_KEYS
  {
  }

  /** The keys of the four header members. */
  const CORE_KEYS: set<string> := {"messageType", "deviceId", "requestId", "timestamp"}

  /** toJson: the document it prints. */
  function ToJson(m: Message): (r: map<string, Json>)
    ensures "messageType" in r && r["messageType"] == JInt(m.msgType)
    ensures "timestamp" in r && r["timestamp"] == JInt(m.timestamp)
  {
    PayloadJson(m) + CoreJson(m)
  }

  function AudioOf(doc: Json): AudioFields
  {
    AudioFields(CopyBounded(StringOr(Field(doc, "processName"), ""), AUDIO_NAME_SIZE),
                IntOr(Field(doc, "volume"), 0), BoolOr(Field(doc, "isMuted"), false),
                BoolOr(Field(doc, "hasDefaultDevice"), false),
                CopyBounded(StringOr(Field(doc, "defaultDeviceName"), ""), DEFAULT_DEVICE_NAME_SIZE),
                IntOr(Field(doc, "defaultVolume"), 0), BoolOr(Field(doc, "defaultIsMuted"), false),
                IntOr(Field(doc, "activeSessionCount"), 0))
  }

  function AssetResponseOf(doc: Json): AssetFields
  {
    AssetFields(CopyBounded(StringOr(Field(doc, "processName"), ""), PROCESS_NAME_SIZE),
                BoolOr(Field(doc, "success"), false),
                CopyBounded(StringOr(Field(doc, "errorMessage"), ""), ERROR_MESSAGE_SIZE),
                CopyBounded(StringOr(Field(doc, "assetData"), ""), ASSET_DATA_SIZE),
                IntOr(Field(doc, "width"), 0), IntOr(Field(doc, "height"), 0),
                CopyBounded(StringOr(Field(doc, "format"), ""), FORMAT_SIZE))
  }

  function VolumeOf(doc: Json): VolumeFields
  {
    VolumeFields(CopyBounded(StringOr(Field(doc, "processName"), ""), PROCESS_NAME_SIZE),
                 IntOr(Field(doc, "volume"), 0),
                 CopyBounded(StringOr(Field(doc, "target"), "default"), TARGET_SIZE))
  }

  /** The core fields fromJson reads, over a zeroed payload. */
  function HeaderOf(d: Json, now: uint32): Message
  {
    Message(AsInt(Field(d, "messageType")), StringOr(Field(d, "deviceId"), ""), StringOr(Field(d, "requestId"), ""),
            UInt32Or(Field(d, "timestamp"), now), NO_AUDIO, NO_ASSET, NO_VOLUME)
  }

  /**
   * fromJson: `doc` is the deserialised document, None when deserialisation
   * failed; `now` is millis(), the timestamp used when the document has none.
   */
  function FromJson(doc: Option<Json>, now: uint32): (r: Message)
    ensures doc.None? ==> r == DEFAULT_MESSAGE
    ensures doc.Some? ==> r.msgType == AsInt(Field(doc.value, "messageType"))
    ensures doc.Some? ==> r.timestamp == UInt32Or(Field(doc.value, "timestamp"), now)
  {
    match doc
    case None => DEFAULT_MESSAGE
    case Some(d) =>
      var t := AsInt(Field(d, "messageType"));
      var m := HeaderOf(d, now);
      if t == AUDIO_STATUS then m.(audio := AudioOf(d))
      else if t == ASSET_REQUEST then
        m.(asset := NO_ASSET.(processName := CopyBounded(StringOr(Field(d, "processName"), ""), PROCESS_NAME_SIZE)))
      else if t == ASSET_RESPONSE then m.(asset := AssetResponseOf(d))
      else if t == SET_VOLUME || t == VOLUME_CHANGE then m.(volume := VolumeOf(d))
      else m
  }

  /** fromJson branch by branch: which payload a document of each type fills in. */
  lemma FromJsonPayload(d: Json, now: uint32)
    ensures AsInt(Field(d, "messageType")) == AUDIO_STATUS ==>
      FromJson(Some(d), now) == HeaderOf(d, now).(audio := AudioOf(d))
    ensures AsInt(Field(d, "messageType")) == ASSET_REQUEST ==>
      FromJson(Some(d), now) ==
      HeaderOf(d, now).(asset := NO_ASSET.(processName := CopyBounded(StringOr(Field(d, "processName"), ""), PROCESS_NAME_SIZE)))
    ensures AsInt(Field(d, "messageType")) == ASSET_RESPONSE ==>
      FromJson(Some(d), now) == HeaderOf(d, now).(asset := AssetResponseOf(d))
    ensures AsInt(Field(d, "messageType")) in {SET_VOLUME, VOLUME_CHANGE} ==>
      FromJson(Some(d), now) == HeaderOf(d, now).(volume := VolumeOf(d))
  {
  }

  /** Malformed JSON, or a document without a messageType, gives a message that is not valid. */
  lemma MalformedIsInvalid(doc: Option<Json>, now: uint32)
    requires doc.None? || !ContainsKey(doc.value, "messageType")
    ensures !IsValid(FromJson(doc, now))
  {
  }

  /** A volume command without a target is read as aimed at the "default" device. */
  lemma MissingTargetIsDefault(doc: Json, now: uint32)
    requires AsInt(Field(doc, "messageType")) in {SET_VOLUME, VOLUME_CHANGE}
    requires !ContainsKey(doc, "target")
    ensures FromJson(Some(doc), now).volume.target == "default"
  {
    assert Fits("default", TARGET_SIZE);
    assert CopyBounded("default", TARGET_SIZE) == "default";
  }

  /** The header members read back from any serialised message. */
  lemma CoreRoundTrip(m: Message)
    ensures var doc := JObject(ToJson(m));
      Field(doc, "messageType") == JInt(m.msgType) && Field(doc, "deviceId") == JString(m.deviceId) &&
      Field(doc, "requestId") == JString(m.requestId) && Field(doc, "timestamp") == JInt(m.timestamp)
  {
    var c := CoreJson(m);
    MergeRight(PayloadJson(m), c, "deviceId");
    MergeRight(PayloadJson(m), c, "requestId");
  }

  /** fromJson reads back the header toJson wrote, whatever the type. */
  lemma HeaderRoundTrip(m: Message, now: uint32)
    ensures HeaderOf(JObject(ToJson(m)), now) == Message(m.msgType, m.deviceId, m.requestId, m.timestamp, NO_AUDIO, NO_ASSET, NO_VOLUME)
  {
    CoreRoundTrip(m);
  }

  /** The volume payload read back from its own members. */
  lemma VolumeFieldsRoundTrip(v: VolumeFields)
    requires Fits(v.processName, PROCESS_NAME_SIZE) && Fits(v.target, TARGET_SIZE)
    ensures VolumeOf(JObject(VolumeJson(v))) == v
  {
  }

  /** Members added beside the volume payload do not change what is read from it. */
  lemma VolumeFieldsBeside(p: map<string, Json>, c: map<string, Json>)
    requires forall k :: k in c ==> k in CORE_KEYS
    ensures VolumeOf(JObject(p + c)) == VolumeOf(JObject(p))
  {
    MergeLeft(p, c, "processName");
    MergeLeft(p, c, "volume");
    MergeLeft(p, c, "target");
  }

  /** The volume payload of a serialised volume command reads back unchanged. */
  lemma VolumeReadsBack(m: Message)
    requires (m.msgType == SET_VOLUME || m.msgType == VOLUME_CHANGE)
    requires Fits(m.volume.processName, PROCESS_NAME_SIZE) && Fits(m.volume.target, TARGET_SIZE)
    ensures VolumeOf(JObject(ToJson(m))) == m.volume
  {
    assert PayloadJson(m) == VolumeJson(m.volume);
    CoreKeys(m);
    VolumeFieldsRoundTrip(m.volume);
    VolumeFieldsBeside(PayloadJson(m), CoreJson(m));
  }

  /**
   * For SET_VOLUME and VOLUME_CHANGE, fromJson(toJson(m)) gives the message
   * back when its names fit their buffers (its other payloads zeroed).
   */
  lemma VolumeRoundTrip(m: Message, now: uint32)
    requires (m.msgType == SET_VOLUME || m.msgType == VOLUME_CHANGE)
    requires Fits(m.volume.processName, PROCESS_NAME_SIZE) && Fits(m.volume.target, TARGET_SIZE)
    requires m.audio == NO_AUDIO && m.asset == NO_ASSET
    ensures FromJson(Some(JObject(ToJson(m))), now) == m
  {
    VolumeReadsBack(m);
    HeaderRoundTrip(m, now);
    FromJsonPayload(JObject(ToJson(m)), now);
  }

  /** An asset request carries only the process name, which survives when it fits. */
  lemma AssetRequestRoundTrip(m: Message, now: uint32)
    requires m.msgType == ASSET_REQUEST
    requires Fits(m.asset.processName, PROCESS_NAME_SIZE)
    requires m.audio == NO_AUDIO && m.volume == NO_VOLUME && m.asset == NO_ASSET.(processName := m.asset.processName)
    ensures FromJson(Some(JObject(ToJson(m))), now) == m
  {
    MergeLeft(PayloadJson(m), CoreJson(m), "processName");
    HeaderRoundTrip(m, now);
    FromJsonPayload(JObject(ToJson(m)), now);
  }

  /** The asset response payload read back from its own members. */
  lemma AssetFieldsRoundTrip(a: AssetFields)
    requires Fits(a.processName, PROCESS_NAME_SIZE) && Fits(a.errorMessage, ERROR_MESSAGE_SIZE)
    requires Fits(a.assetDataBase64, ASSET_DATA_SIZE) && Fits(a.format, FORMAT_SIZE)
    ensures AssetResponseOf(JObject(AssetResponseJson(a))) == a
  {
    AssetLookupsHead(a);
    AssetLookupsTail(a);
  }

  lemma AssetLookupsHead(a: AssetFields)
    ensures var d := JObject(AssetResponseJson(a));
      Field(d, "processName") == JString(a.processName) && Field(d, "success") == JBool(a.success) &&
      Field(d, "errorMessage") == JString(a.errorMessage)
  {
  }

  lemma AssetLookupsTail(a: AssetFields)
    ensures var d := JObject(AssetResponseJson(a));
      Field(d, "assetData") == JString(a.assetDataBase64) && Field(d, "width") == JInt(a.width) &&
      Field(d, "height") == JInt(a.height) && Field(d, "format") == JString(a.format)
  {
  }

  /** Members added beside the asset response payload do not change what is read from it. */
  lemma AssetFieldsBeside(p: map<string, Json>, c: map<string, Json>)
    requires forall k :: k in c ==> k in CORE_KEYS
    ensures AssetResponseOf(JObject(p + c)) == AssetResponseOf(JObject(p))
  {
    MergeLeft(p, c, "processName");
    MergeLeft(p, c, "success");
    MergeLeft(p, c, "errorMessage");
    MergeLeft(p, c, "assetData");
    MergeLeft(p, c, "width");
    MergeLeft(p, c, "height");
    MergeLeft(p, c, "format");
  }

  /** The payload of a serialised asset response reads back unchanged. */
  lemma AssetResponseReadsBack(m: Message)
    requires m.msgType == ASSET_RESPONSE
    requires Fits(m.asset.processName, PROCESS_NAME_SIZE) && Fits(m.asset.errorMessage, ERROR_MESSAGE_SIZE)
    requires Fits(m.asset.assetDataBase64, ASSET_DATA_SIZE) && Fits(m.asset.format, FORMAT_SIZE)
    ensures AssetResponseOf(JObject(ToJson(m))) == m.asset
  {
    assert PayloadJson(m) == AssetResponseJson(m.asset);
    CoreKeys(m);
    AssetFieldsRoundTrip(m.asset);
    AssetFieldsBeside(PayloadJson(m), CoreJson(m));
  }

  /** An asset response survives when its texts fit their buffers. */
  lemma AssetResponseRoundTrip(m: Message, now: uint32)
    requires m.msgType == ASSET_RESPONSE
    requires Fits(m.asset.processName, PROCESS_NAME_SIZE) && Fits(m.asset.errorMessage, ERROR_MESSAGE_SIZE)
    requires Fits(m.asset.assetDataBase64, ASSET_DATA_SIZE) && Fits(m.asset.format, FORMAT_SIZE)
    requires m.audio == NO_AUDIO && m.volume == NO_VOLUME
    ensures FromJson(Some(JObject(ToJson(m))), now) == m
  {
    AssetResponseReadsBack(m);
    HeaderRoundTrip(m, now);
    FromJsonPayload(JObject(ToJson(m)), now);
  }

  /** The audio payload read back from its own members. */
  lemma AudioFieldsRoundTrip(a: AudioFields)
    requires Fits(a.processName, AUDIO_NAME_SIZE) && Fits(a.defaultDeviceName, DEFAULT_DEVICE_NAME_SIZE)
    ensures AudioOf(JObject(AudioJson(a))) == a
  {
    AudioLookupsHead(a);
    AudioLookupsMiddle(a);
    AudioLookupsTail(a);
  }

  lemma AudioLookupsHead(a: AudioFields)
    ensures var d := JObject(AudioJson(a));
      Field(d, "processName") == JString(a.processName) && Field(d, "volume") == JInt(a.volume) &&
      Field(d, "isMuted") == JBool(a.isMuted)
  {
  }

  lemma AudioLookupsMiddle(a: AudioFields)
    ensures var d := JObject(AudioJson(a));
      Field(d, "hasDefaultDevice") == JBool(a.hasDefaultDevice) &&
      Field(d, "defaultDeviceName") == JString(a.defaultDeviceName) && Field(d, "defaultVolume") == JInt(a.defaultVolume)
  {
  }

  lemma AudioLookupsTail(a: AudioFields)
    ensures var d := JObject(AudioJson(a));
      Field(d, "defaultIsMuted") == JBool(a.defaultIsMuted) && Field(d, "activeSessionCount") == JInt(a.activeSessionCount)
  {
  }

  /** Members added beside the audio payload do not change what is read from it. */
  lemma AudioFieldsBeside(p: map<string, Json>, c: map<string, Json>)
    requires forall k :: k in c ==> k in CORE_KEYS
    ensures AudioOf(JObject(p + c)) == AudioOf(JObject(p))
  {
    MergeLeft(p, c, "processName");
    MergeLeft(p, c, "volume");
    MergeLeft(p, c, "isMuted");
    MergeLeft(p, c, "hasDefaultDevice");
    MergeLeft(p, c, "defaultDeviceName");
    MergeLeft(p, c, "defaultVolume");
    MergeLeft(p, c, "defaultIsMuted");
    MergeLeft(p, c, "activeSessionCount");
  }

  /** The payload of a serialised audio status reads back unchanged. */
  lemma AudioReadsBack(m: Message)
    requires m.msgType == AUDIO_STATUS
    requires Fits(m.audio.processName, AUDIO_NAME_SIZE) && Fits(m.audio.defaultDeviceName, DEFAULT_DEVICE_NAME_SIZE)
    ensures AudioOf(JObject(ToJson(m))) == m.audio
  {
    assert PayloadJson(m) == AudioJson(m.audio);
    CoreKeys(m);
    AudioFieldsRoundTrip(m.audio);
    AudioFieldsBeside(PayloadJson(m), CoreJson(m));
  }

  /** An audio status survives when its names fit their buffers. */
  lemma AudioRoundTrip(m: Message, now: uint32)
    requires m.msgType == AUDIO_STATUS
    requires Fits(m.audio.processName, AUDIO_NAME_SIZE) && Fits(m.audio.defaultDeviceName, DEFAULT_DEVICE_NAME_SIZE)
    requires m.asset == NO_ASSET && m.volume == NO_VOLUME
    ensures FromJson(Some(JObject(ToJson(m))), now) == m
  {
    AudioReadsBack(m);
    HeaderRoundTrip(m, now);
    FromJsonPayload(JObject(ToJson(m)), now);
  }

  /** A volume change built by the factory reaches the other side with its name cut to the buffer and an empty target. */
  lemma CreatedVolumeChangeRoundTrip(processName: string, volume: int32, deviceId: string, configId: string,
                                     requestId: string, now: uint32, later: uint32)
    ensures var m := CreateVolumeChange(processName, volume, deviceId, configId, requestId, now);
      FromJson(Some(JObject(ToJson(m))), later) == m
  {
    var m := CreateVolumeChange(processName, volume, deviceId, configId, requestId, now);
    assert Fits("", TARGET_SIZE);
    VolumeRoundTrip(m, later);
  }
}
