/**
 * The messaging layer between the wire and the firmware: the external
 * message record, its parser and serializer, the loop filter, the audio
 * status and asset response payloads, and the conversion between external
 * and internal messages.
 */
module MessageData {
  import opened Wrappers
  import opened Bits
  import opened Json
  import opened MessageTypes

  // The JsonFields key names (camelCase, as the protocol uses them).
  const MESSAGE_TYPE := "messageType"
  const REQUEST_ID := "requestId"
  const DEVICE_ID := "deviceId"
  const ORIGINATING_DEVICE_ID := "originatingDeviceId"
  const TIMESTAMP := "timestamp"
  const SESSIONS := "sessions"
  const PROCESS_ID := "processId"
  const PROCESS_NAME := "processName"
  const DISPLAY_NAME := "displayName"
  const VOLUME := "volume"
  const IS_MUTED := "isMuted"
  const STATE := "state"
  const DEFAULT_DEVICE := "defaultDevice"
  const FRIENDLY_NAME := "friendlyName"
  const DATA_FLOW := "dataFlow"
  const DEVICE_ROLE := "deviceRole"
  const REASON := "reason"
  const ORIGINATING_REQUEST_ID := "originatingRequestId"
  const ACTIVE_SESSION_COUNT := "activeSessionCount"

  /** The five keys the serializer writes itself and never copies from parsedData. */
  const CORE_KEYS: set<string> := {MESSAGE_TYPE, REQUEST_ID, DEVICE_ID, TIMESTAMP, ORIGINATING_DEVICE_ID}

  /** ExternalMessage: the header fields and the parsed JSON members. */
  datatype ExternalMessage = ExternalMessage(
    messageType: int,
    requestId: string,
    deviceId: string,
    originatingDeviceId: string,
    timestamp: uint32,
    validated: bool,
    parsedData: map<string, Json>)

  /** ExternalMessage(type, reqId, devId): stamped with the clock, no originator, no data. */
  function NewExternal(t: int, requestId: string, deviceId: string, now: uint32): (r: ExternalMessage)
    ensures r.messageType == t && r.requestId == requestId && r.deviceId == deviceId
    ensures r.originatingDeviceId == "" && r.timestamp == now && r.validated && r.parsedData == map[]
  {
    ExternalMessage(t, requestId, deviceId, "", now, true, map[])
  }

  /** isSelfOriginated: the device or the originating device is this one. */
  predicate IsSelfOriginated(m: ExternalMessage, myDeviceId: string)
  {
    m.deviceId == myDeviceId || m.originatingDeviceId == myDeviceId
  }

  /** requiresResponse: only the two request types expect an answer. */
  function RequiresResponse(m: ExternalMessage): (r: bool)
    ensures r <==> m.messageType in {GET_STATUS, GET_ASSETS}
  {
    m.messageType == GET_STATUS || m.messageType == GET_ASSETS
  }

  /** A request that expects an answer is never a high-priority message. */
  lemma RequestsAreNotHighPriority(m: ExternalMessage)
    requires RequiresResponse(m)
    ensures ExternalPriorityOf(m.messageType) != High
    ensures ExternalCategoryOf(m.messageType) in {Status, Assets}
  {
  }

  // ---------------------------------------------------------------------------
  // MessageParser
  // ---------------------------------------------------------------------------

  datatype ParseError = EmptyPayload | DeserializationFailed | MissingMessageType | InvalidMessageType

  /**
   * MessageParser::parseExternalMessageType: `doc` is what deserializeJson
   * made of `payload` (None when it reported an error).  The type is read
   * with `as<int>()`, so a numeric string or a boolean counts as a number.
   */
  function ParseExternalMessageType(payload: string, doc: Option<Json>): (r: Result<int, ParseError>)
    ensures r.Ok? ==> IsValidExternal(r.value)
    ensures r.Ok? ==>
      payload != [] && doc.Some? && ContainsKey(doc.value, MESSAGE_TYPE) && r.value == AsInt(Field(doc.value, MESSAGE_TYPE))
  {
    if payload == [] then Err(EmptyPayload)
    else if doc.None? then Err(DeserializationFailed)
    else if !ContainsKey(doc.value, MESSAGE_TYPE) then Err(MissingMessageType)
    else
      var t := AsInt(Field(doc.value, MESSAGE_TYPE));
      if !IsValidExternal(t) then Err(InvalidMessageType) else Ok(t)
  }

  /** A type written as the text of its number is read as that type ({"messageType":"2"} is GET_STATUS). */
  lemma TypeFromNumericText(payload: string, t: int)
    requires payload != [] && IsValidExternal(t)
    ensures ParseExternalMessageType(payload, Some(JObject(map[MESSAGE_TYPE := JString(IntText(t))]))) == Ok(t)
  {
    IntTextRoundTrip(t);
  }

  /**
   * How a text member is read.  MessageParser uses `as<String>()`, which
   * reads a missing member as "null"; the inline parser of MessageData.h
   * uses `| ""`, which reads it as "".
   */
  datatype TextReading = AsStringReading | DefaultEmptyReading

  function ReadText(reading: TextReading, v: Json): (r: string)
    ensures v.JString? ==> r == v.s
    ensures v.JNull? ==> (r == "" <==> reading == DefaultEmptyReading)
  {
    match reading
    case AsStringReading => AsString(v)
    case DefaultEmptyReading => StringOr(v, "")
  }

  /** parseExternalMessage, with the text members read in the given way. */
  function ParseExternalMessageWith(reading: TextReading, payload: string, doc: Option<Json>, now: uint32)
    : (r: Result<ExternalMessage, ParseError>)
    ensures r.Err? <==> ParseExternalMessageType(payload, doc).Err?
    ensures r.Err? ==> r.error == ParseExternalMessageType(payload, doc).error
    ensures r.Ok? ==> r.value.messageType == ParseExternalMessageType(payload, doc).value
    ensures r.Ok? ==> (r.value.validated && doc.Some? &&
      r.value.requestId == ReadText(reading, Field(doc.value, REQUEST_ID)) &&
      r.value.deviceId == ReadText(reading, Field(doc.value, DEVICE_ID)) &&
      r.value.originatingDeviceId == ReadText(reading, Field(doc.value, ORIGINATING_DEVICE_ID)) &&
      r.value.parsedData == Members(doc.value))
    ensures r.Ok? ==> var ts := AsUInt32(Field(doc.value, TIMESTAMP));
      r.value.timestamp == (if ts == 0 then now else ts)
  {
    match ParseExternalMessageType(payload, doc)
    case Err(e) => Err(e)
    case Ok(t) =>
      var d := doc.value;
      var ts := AsUInt32(Field(d, TIMESTAMP));
      Ok(ExternalMessage(t, ReadText(reading, Field(d, REQUEST_ID)), ReadText(reading, Field(d, DEVICE_ID)),
                         ReadText(reading, Field(d, ORIGINATING_DEVICE_ID)),
                         if ts == 0 then now else ts, true, Members(d)))
  }

  /** MessageParser::parseExternalMessage: the ids are read with `as<String>()`. */
  function ParseExternalMessage(payload: string, doc: Option<Json>, now: uint32): (r: Result<ExternalMessage, ParseError>)
    ensures r.Err? <==> ParseExternalMessageType(payload, doc).Err?
    ensures r.Err? ==> r.error == ParseExternalMessageType(payload, doc).error
    ensures r.Ok? ==> r.value.messageType == ParseExternalMessageType(payload, doc).value
    ensures r.Ok? ==> (r.value.validated && doc.Some? &&
      r.value.requestId == AsString(Field(doc.value, REQUEST_ID)) &&
      r.value.deviceId == AsString(Field(doc.value, DEVICE_ID)) &&
      r.value.originatingDeviceId == AsString(Field(doc.value, ORIGINATING_DEVICE_ID)) &&
      r.value.parsedData == Members(doc.value))
    ensures r.Ok? && !ContainsKey(doc.value, REQUEST_ID) ==> r.value.requestId == "null"
    ensures r.Ok? && !ContainsKey(doc.value, DEVICE_ID) ==> r.value.deviceId == "null"
    ensures r.Ok? && !ContainsKey(doc.value, ORIGINATING_DEVICE_ID) ==> r.value.originatingDeviceId == "null"
    ensures r.Ok? ==> var ts := AsUInt32(Field(doc.value, TIMESTAMP));
      r.value.timestamp == (if ts == 0 then now else ts)
  {
    ParseExternalMessageWith(AsStringReading, payload, doc, now)
  }

  /** The parser's error cases, each exactly. */
  lemma ParseErrorsExactly(payload: string, doc: Option<Json>, now: uint32)
    ensures ParseExternalMessage(payload, doc, now) == Err(EmptyPayload) <==> payload == []
    ensures ParseExternalMessage(payload, doc, now) == Err(DeserializationFailed) <==> payload != [] && doc.None?
    ensures ParseExternalMessage(payload, doc, now) == Err(MissingMessageType) <==>
      payload != [] && doc.Some? && !ContainsKey(doc.value, MESSAGE_TYPE)
    ensures ParseExternalMessage(payload, doc, now) == Err(InvalidMessageType) <==>
      payload != [] && doc.Some? && ContainsKey(doc.value, MESSAGE_TYPE) &&
      !IsValidExternal(AsInt(Field(doc.value, MESSAGE_TYPE)))
  {
  }

  /** shouldIgnoreMessage: INVALID, from this device, or originated by this device. */
  function ShouldIgnoreMessage(m: ExternalMessage, myDeviceId: string): (r: bool)
    ensures m.messageType == INVALID ==> r
    ensures m.deviceId == myDeviceId ==> r
    ensures m.originatingDeviceId != "" && m.originatingDeviceId == myDeviceId ==> r
    ensures r ==> (m.messageType == INVALID || m.deviceId == myDeviceId ||
      (m.originatingDeviceId != "" && m.originatingDeviceId == myDeviceId))
  {
    if m.messageType == INVALID then true
    else if m.deviceId == myDeviceId then true
    else if m.originatingDeviceId != [] && m.originatingDeviceId == myDeviceId then true
    else false
  }

  /**
   * For a valid message and a non-empty own id the loop filter is exactly
   * isSelfOriginated; with an empty own id it differs only in not ignoring a
   * message whose originating id is empty.
   */
  lemma IgnoreIsSelfOrigin(m: ExternalMessage, myDeviceId: string)
    requires m.messageType != INVALID
    ensures myDeviceId != "" ==> (ShouldIgnoreMessage(m, myDeviceId) <==> IsSelfOriginated(m, myDeviceId))
    ensures ShouldIgnoreMessage(m, myDeviceId) ==> IsSelfOriginated(m, myDeviceId)
  {
  }

  // ---------------------------------------------------------------------------
  // Audio status payload
  // ---------------------------------------------------------------------------

  /** SessionStatusData, with the volume as an integer. */
  datatype SessionStatus = SessionStatus(
    processId: int32, processName: string, displayName: string, volume: int, isMuted: bool, state: string)

  /** DefaultAudioDeviceData, with the volume as an integer. */
  datatype DefaultDevice = DefaultDevice(
    friendlyName: string, volume: int, isMuted: bool, dataFlow: string, deviceRole: string)

  const NO_DEFAULT_DEVICE: DefaultDevice := DefaultDevice("", 0, false, "", "")

  /** AudioStatusData. */
  datatype AudioStatus = AudioStatus(
    sessions: seq<SessionStatus>,
    defaultDevice: DefaultDevice,
    hasDefaultDevice: bool,
    timestamp: uint32,
    reason: string,
    originatingDeviceId: string,
    originatingRequestId: string,
    activeSessionCount: int32)

  /** One element of "sessions", each field read with `as<T>()` (a non-object element has only null members). */
  function SessionOf(reading: TextReading, v: Json): SessionStatus
  {
    SessionStatus(AsInt(Field(v, PROCESS_ID)), ReadText(reading, Field(v, PROCESS_NAME)),
                  ReadText(reading, Field(v, DISPLAY_NAME)), AsNumber(Field(v, VOLUME)), AsBool(Field(v, IS_MUTED)),
                  ReadText(reading, Field(v, STATE)))
  }

  /** The for loop over the sessions array: one session per element, in order. */
  function SessionsOf(reading: TextReading, items: seq<Json>): (r: seq<SessionStatus>)
    ensures |r| == |items|
    ensures forall i :: 0 <= i < |items| ==> r[i] == SessionOf(reading, items[i])
  {
    if items == [] then [] else [SessionOf(reading, items[0])] + SessionsOf(reading, items[1..])
  }

  /** A session element without members reads with `as<T>()` as id 0, names "null", volume 0, unmuted. */
  lemma EmptySessionReadsNull()
    ensures SessionsOf(AsStringReading, [JObject(map[])]) == [SessionStatus(0, "null", "null", 0, false, "null")]
  {
    assert SessionsOf(AsStringReading, [JObject(map[])])[0] == SessionOf(AsStringReading, JObject(map[]));
  }

  function DefaultDeviceOf(reading: TextReading, v: Json): DefaultDevice
  {
    DefaultDevice(ReadText(reading, Field(v, FRIENDLY_NAME)), AsNumber(Field(v, VOLUME)), AsBool(Field(v, IS_MUTED)),
                  ReadText(reading, Field(v, DATA_FLOW)), ReadText(reading, Field(v, DEVICE_ROLE)))
  }

  /** parseAudioStatusData, with the text members read in the given way. */
  function ParseAudioStatusWith(reading: TextReading, m: ExternalMessage): (r: Result<AudioStatus, string>)
    ensures r.Err? <==> m.messageType != STATUS_UPDATE && m.messageType != STATUS_MESSAGE
    ensures r.Ok? ==> r.value.timestamp == m.timestamp
    ensures r.Ok? ==> r.value.hasDefaultDevice == (DEFAULT_DEVICE in m.parsedData)
    ensures r.Ok? ==> (|r.value.sessions| ==
      (if SESSIONS in m.parsedData then |Elements(m.parsedData[SESSIONS])| else 0))
    ensures r.Ok? ==> var doc := JObject(m.parsedData);
      r.value.reason == ReadText(reading, Field(doc, REASON)) &&
      r.value.originatingDeviceId == ReadText(reading, Field(doc, ORIGINATING_DEVICE_ID)) &&
      r.value.originatingRequestId == ReadText(reading, Field(doc, ORIGINATING_REQUEST_ID))
  {
    if m.messageType != STATUS_UPDATE && m.messageType != STATUS_MESSAGE then
      Err("Invalid message type for audio status")
    else
      var doc := JObject(m.parsedData);
      var sessions := if ContainsKey(doc, SESSIONS) then SessionsOf(reading, Elements(Field(doc, SESSIONS))) else [];
      var hasDefault := ContainsKey(doc, DEFAULT_DEVICE);
      var device := if hasDefault then DefaultDeviceOf(reading, Field(doc, DEFAULT_DEVICE)) else NO_DEFAULT_DEVICE;
      Ok(AudioStatus(sessions, device, hasDefault, m.timestamp, ReadText(reading, Field(doc, REASON)),
                     ReadText(reading, Field(doc, ORIGINATING_DEVICE_ID)),
                     ReadText(reading, Field(doc, ORIGINATING_REQUEST_ID)),
                     AsInt(Field(doc, ACTIVE_SESSION_COUNT))))
  }

  /** MessageParser::parseAudioStatusData: only the two status types carry audio status; texts are read with `as<String>()`. */
  function ParseAudioStatusData(m: ExternalMessage): (r: Result<AudioStatus, string>)
    ensures r.Err? <==> m.messageType != STATUS_UPDATE && m.messageType != STATUS_MESSAGE
    ensures r.Ok? ==> r.value.timestamp == m.timestamp
    ensures r.Ok? ==> r.value.hasDefaultDevice == (DEFAULT_DEVICE in m.parsedData)
    ensures r.Ok? ==> (|r.value.sessions| ==
      (if SESSIONS in m.parsedData then |Elements(m.parsedData[SESSIONS])| else 0))
    ensures r.Ok? && REASON !in m.parsedData ==> r.value.reason == "null"
    ensures r.Ok? && ORIGINATING_DEVICE_ID !in m.parsedData ==> r.value.originatingDeviceId == "null"
    ensures r.Ok? && ORIGINATING_REQUEST_ID !in m.parsedData ==> r.value.originatingRequestId == "null"
    ensures r.Ok? ==> r.value.activeSessionCount == AsInt(Field(JObject(m.parsedData), ACTIVE_SESSION_COUNT))
  {
    ParseAudioStatusWith(AsStringReading, m)
  }

  function SessionJson(s: SessionStatus): Json
  {
    JObject(map[PROCESS_ID := JInt(s.processId), PROCESS_NAME := JString(s.processName),
                DISPLAY_NAME := JString(s.displayName), VOLUME := JInt(s.volume),
                IS_MUTED := JBool(s.isMuted), STATE := JString(s.state)])
  }

  function SessionsJson(ss: seq<SessionStatus>): (r: seq<Json>)
    ensures |r| == |ss|
    ensures forall i :: 0 <= i < |ss| ==> r[i] == SessionJson(ss[i])
  {
    if ss == [] then [] else [SessionJson(ss[0])] + SessionsJson(ss[1..])
  }

  /** Parsing the sessions array the serializer builds gives the sessions back, whichever way texts are read. */
  lemma SessionsRoundTrip(reading: TextReading, ss: seq<SessionStatus>)
    ensures SessionsOf(reading, SessionsJson(ss)) == ss
  {
    var r := SessionsOf(reading, SessionsJson(ss));
    forall i | 0 <= i < |ss|
      ensures r[i] == ss[i]
    {
      SessionRoundTrip(reading, ss[i]);
    }
  }

  /** One session reads back from the object the serializer builds for it. */
  lemma SessionRoundTrip(reading: TextReading, s: SessionStatus)
    ensures SessionOf(reading, SessionJson(s)) == s
  {
    var v := SessionJson(s);
    assert Field(v, PROCESS_ID) == JInt(s.processId);
    assert Field(v, PROCESS_NAME) == JString(s.processName);
    assert Field(v, DISPLAY_NAME) == JString(s.displayName);
    assert Field(v, VOLUME) == JInt(s.volume);
    assert Field(v, IS_MUTED) == JBool(s.isMuted);
    assert Field(v, STATE) == JString(s.state);
  }

  function DefaultDeviceJson(v: DefaultDevice): Json
  {
    JObject(map[FRIENDLY_NAME := JString(v.friendlyName), VOLUME := JInt(v.volume), IS_MUTED := JBool(v.isMuted),
                DATA_FLOW := JString(v.dataFlow), DEVICE_ROLE := JString(v.deviceRole)])
  }

  lemma DefaultDeviceRoundTrip(reading: TextReading, v: DefaultDevice)
    ensures DefaultDeviceOf(reading, DefaultDeviceJson(v)) == v
  {
  }

  /** The optional members of a status response, each written only when non-empty. */
  function OptionalText(key: string, value: string): map<string, Json>
  {
    if value != [] then map[key := JString(value)] else map[]
  }

  /** The member a reader finds for a text written with OptionalText: null for the empty text. */
  function WrittenText(value: string): Json
  {
    if value != [] then JString(value) else JNull
  }

  /** MessageSerializer::createStatusResponse, with Config::getDeviceId() as `deviceId`. */
  function CreateStatusResponse(d: AudioStatus, deviceId: string): (r: map<string, Json>)
    ensures MESSAGE_TYPE in r && r[MESSAGE_TYPE] == JInt(STATUS_MESSAGE)
    ensures DEVICE_ID in r && r[DEVICE_ID] == JString(deviceId)
  {
    StatusOptional(d) + StatusCore(d, deviceId)
  }

  /** The members every status response has. */
  function StatusCore(d: AudioStatus, deviceId: string): map<string, Json>
  {
    map[MESSAGE_TYPE := JInt(STATUS_MESSAGE), DEVICE_ID := JString(deviceId),
        TIMESTAMP := JInt(d.timestamp), ACTIVE_SESSION_COUNT := JInt(d.activeSessionCount),
        SESSIONS := JArray(SessionsJson(d.sessions))]
  }

  /** The members a status response has only when they are set. */
  function StatusOptional(d: AudioStatus): map<string, Json>
  {
    OptionalText(REASON, d.reason)
    + OptionalText(ORIGINATING_DEVICE_ID, d.originatingDeviceId)
    + OptionalText(ORIGINATING_REQUEST_ID, d.originatingRequestId)
    + (if d.hasDefaultDevice then map[DEFAULT_DEVICE := DefaultDeviceJson(d.defaultDevice)] else map[])
  }

  lemma StatusCoreFields(d: AudioStatus, deviceId: string)
    ensures var c := StatusCore(d, deviceId);
      c.Keys == {MESSAGE_TYPE, DEVICE_ID, TIMESTAMP, ACTIVE_SESSION_COUNT, SESSIONS} &&
      c[MESSAGE_TYPE] == JInt(STATUS_MESSAGE) && c[DEVICE_ID] == JString(deviceId) &&
      c[TIMESTAMP] == JInt(d.timestamp) && c[SESSIONS] == JArray(SessionsJson(d.sessions)) &&
      c[ACTIVE_SESSION_COUNT] == JInt(d.activeSessionCount)
  {
  }

  lemma StatusOptionalFields(d: AudioStatus)
    ensures var o := StatusOptional(d);
      o.Keys <= {REASON, ORIGINATING_DEVICE_ID, ORIGINATING_REQUEST_ID, DEFAULT_DEVICE} &&
      Field(JObject(o), REASON) == WrittenText(d.reason) &&
      Field(JObject(o), ORIGINATING_DEVICE_ID) == WrittenText(d.originatingDeviceId) &&
      Field(JObject(o), ORIGINATING_REQUEST_ID) == WrittenText(d.originatingRequestId) &&
      (DEFAULT_DEVICE in o <==> d.hasDefaultDevice) &&
      (d.hasDefaultDevice ==> o[DEFAULT_DEVICE] == DefaultDeviceJson(d.defaultDevice))
  {
    var dm: map<string, Json> := if d.hasDefaultDevice then map[DEFAULT_DEVICE := DefaultDeviceJson(d.defaultDevice)] else map[];
    var o1, o2, o3 := OptionalText(REASON, d.reason), OptionalText(ORIGINATING_DEVICE_ID, d.originatingDeviceId),
      OptionalText(ORIGINATING_REQUEST_ID, d.originatingRequestId);
    assert REASON !in dm && REASON !in o2 && REASON !in o3;
    assert ORIGINATING_DEVICE_ID !in dm && ORIGINATING_DEVICE_ID !in o3;
    assert ORIGINATING_REQUEST_ID !in dm;
  }

  /** The header members the parser reads from a status response: it has no requestId member. */
  lemma StatusHeaderFields(d: AudioStatus, deviceId: string)
    ensures var doc := JObject(CreateStatusResponse(d, deviceId));
      Field(doc, DEVICE_ID) == JString(deviceId) && Field(doc, TIMESTAMP) == JInt(d.timestamp) &&
      !ContainsKey(doc, REQUEST_ID) && Field(doc, REQUEST_ID) == JNull
  {
    StatusCoreFields(d, deviceId);
    StatusOptionalFields(d);
    var c, o := StatusCore(d, deviceId), StatusOptional(d);
    assert CreateStatusResponse(d, deviceId) == o + c;
    MergeRight(o, c, DEVICE_ID);
    MergeRight(o, c, TIMESTAMP);
    assert REQUEST_ID !in o;
    MergeLeft(o, c, REQUEST_ID);
  }

  /** The sessions and the default device the parser reads from a status response. */
  lemma StatusBodyFields(d: AudioStatus, deviceId: string)
    ensures var doc := JObject(CreateStatusResponse(d, deviceId));
      Field(doc, SESSIONS) == JArray(SessionsJson(d.sessions)) &&
      Field(doc, ACTIVE_SESSION_COUNT) == JInt(d.activeSessionCount) &&
      (ContainsKey(doc, DEFAULT_DEVICE) <==> d.hasDefaultDevice) &&
      (d.hasDefaultDevice ==> Field(doc, DEFAULT_DEVICE) == DefaultDeviceJson(d.defaultDevice))
  {
    StatusCoreFields(d, deviceId);
    StatusOptionalFields(d);
    var c, o := StatusCore(d, deviceId), StatusOptional(d);
    assert CreateStatusResponse(d, deviceId) == o + c;
    MergeRight(o, c, SESSIONS);
    MergeRight(o, c, ACTIVE_SESSION_COUNT);
    MergeLeft(o, c, DEFAULT_DEVICE);
  }

  /** The optional texts of a status response: present when non-empty, and null members when empty. */
  lemma StatusTextFields(d: AudioStatus, deviceId: string)
    ensures var doc := JObject(CreateStatusResponse(d, deviceId));
      Field(doc, REASON) == WrittenText(d.reason) &&
      Field(doc, ORIGINATING_DEVICE_ID) == WrittenText(d.originatingDeviceId) &&
      Field(doc, ORIGINATING_REQUEST_ID) == WrittenText(d.originatingRequestId)
  {
    StatusCoreFields(d, deviceId);
    StatusOptionalFields(d);
    var c, o := StatusCore(d, deviceId), StatusOptional(d);
    assert CreateStatusResponse(d, deviceId) == o + c;
    MergeLeft(o, c, REASON);
    MergeLeft(o, c, ORIGINATING_DEVICE_ID);
    MergeLeft(o, c, ORIGINATING_REQUEST_ID);
  }

  /** A text written only when non-empty, as a parser reads it back. */
  function TextReadBack(reading: TextReading, value: string): string
  {
    ReadText(reading, WrittenText(value))
  }

  /** The external message a parser makes of a status response. */
  lemma StatusResponseHeader(reading: TextReading, d: AudioStatus, deviceId: string, payload: string, now: uint32)
    requires payload != []
    ensures var doc := JObject(CreateStatusResponse(d, deviceId));
      ParseExternalMessageWith(reading, payload, Some(doc), now) ==
        Ok(ExternalMessage(STATUS_MESSAGE, ReadText(reading, JNull), deviceId,
                           TextReadBack(reading, d.originatingDeviceId),
                           if d.timestamp == 0 then now else d.timestamp, true, doc.fields))
  {
    StatusHeaderFields(d, deviceId);
    StatusTextFields(d, deviceId);
    var doc := JObject(CreateStatusResponse(d, deviceId));
    assert ParseExternalMessageType(payload, Some(doc)) == Ok(STATUS_MESSAGE);
  }

  /** The audio status a parser makes of the members of a status response. */
  lemma StatusResponseBody(reading: TextReading, d: AudioStatus, deviceId: string, m: ExternalMessage)
    requires m.messageType == STATUS_MESSAGE && m.parsedData == CreateStatusResponse(d, deviceId)
    requires !d.hasDefaultDevice ==> d.defaultDevice == NO_DEFAULT_DEVICE
    ensures ParseAudioStatusWith(reading, m) ==
      Ok(d.(timestamp := m.timestamp,
            reason := TextReadBack(reading, d.reason),
            originatingDeviceId := TextReadBack(reading, d.originatingDeviceId),
            originatingRequestId := TextReadBack(reading, d.originatingRequestId)))
  {
    StatusBodyFields(d, deviceId);
    StatusTextFields(d, deviceId);
    SessionsRoundTrip(reading, d.sessions);
    DefaultDeviceRoundTrip(reading, d.defaultDevice);
    var doc := JObject(m.parsedData);
    assert ContainsKey(doc, SESSIONS);
    var sessions := SessionsOf(reading, Elements(Field(doc, SESSIONS)));
    assert sessions == d.sessions;
    var device := if d.hasDefaultDevice then DefaultDeviceOf(reading, Field(doc, DEFAULT_DEVICE)) else NO_DEFAULT_DEVICE;
    assert device == d.defaultDevice;
    assert ParseAudioStatusWith(reading, m) ==
      Ok(AudioStatus(sessions, device, d.hasDefaultDevice, m.timestamp, TextReadBack(reading, d.reason),
                     TextReadBack(reading, d.originatingDeviceId), TextReadBack(reading, d.originatingRequestId),
                     d.activeSessionCount));
  }

  /**
   * A status response parsed back as an external message and then as audio
   * status, with the texts read in the given way: the same status, except
   * that a zero timestamp is replaced by the clock and each empty optional
   * text reads as a missing member does.
   */
  lemma StatusResponseRoundTripWith(reading: TextReading, d: AudioStatus, deviceId: string, payload: string, now: uint32)
    requires payload != []
    requires !d.hasDefaultDevice ==> d.defaultDevice == NO_DEFAULT_DEVICE
    ensures var m := ParseExternalMessageWith(reading, payload, Some(JObject(CreateStatusResponse(d, deviceId))), now);
      m.Ok? && m.value.deviceId == deviceId && m.value.messageType == STATUS_MESSAGE &&
      m.value.requestId == ReadText(reading, JNull) &&
      ParseAudioStatusWith(reading, m.value) ==
        Ok(d.(timestamp := if d.timestamp == 0 then now else d.timestamp,
              reason := TextReadBack(reading, d.reason),
              originatingDeviceId := TextReadBack(reading, d.originatingDeviceId),
              originatingRequestId := TextReadBack(reading, d.originatingRequestId)))
  {
    StatusResponseHeader(reading, d, deviceId, payload, now);
    var m := ParseExternalMessageWith(reading, payload, Some(JObject(CreateStatusResponse(d, deviceId))), now);
    StatusResponseBody(reading, d, deviceId, m.value);
  }

  /** The text `as<String>()` reads back for a text written only when non-empty. */
  function NullIfEmpty(s: string): string
  {
    if s == "" then "null" else s
  }

  /**
   * A status response the firmware builds, parsed back as the firmware
   * parses it: the requestId reads as "null", and so does each optional
   * text that was empty; everything else (a zero timestamp replaced by the
   * clock) is the status that was sent.
   */
  lemma StatusResponseRoundTrip(d: AudioStatus, deviceId: string, payload: string, now: uint32)
    requires payload != []
    requires !d.hasDefaultDevice ==> d.defaultDevice == NO_DEFAULT_DEVICE
    ensures var m := ParseExternalMessage(payload, Some(JObject(CreateStatusResponse(d, deviceId))), now);
      m.Ok? && m.value.deviceId == deviceId && m.value.messageType == STATUS_MESSAGE &&
      m.value.requestId == "null" &&
      ParseAudioStatusData(m.value) ==
        Ok(d.(timestamp := if d.timestamp == 0 then now else d.timestamp,
              reason := NullIfEmpty(d.reason), originatingDeviceId := NullIfEmpty(d.originatingDeviceId),
              originatingRequestId := NullIfEmpty(d.originatingRequestId)))
  {
    StatusResponseRoundTripWith(AsStringReading, d, deviceId, payload, now);
  }

  /** An empty reason comes back as the text "null" (the as-written half of the finding). */
  lemma EmptyReasonReadsNull(d: AudioStatus, deviceId: string, payload: string, now: uint32)
    requires payload != [] && d.reason == ""
    requires !d.hasDefaultDevice ==> d.defaultDevice == NO_DEFAULT_DEVICE
    ensures var m := ParseExternalMessage(payload, Some(JObject(CreateStatusResponse(d, deviceId))), now);
      m.Ok? && ParseAudioStatusData(m.value).Ok? && ParseAudioStatusData(m.value).value.reason == "null" &&
      ParseAudioStatusData(m.value).value != d
  {
    StatusResponseRoundTrip(d, deviceId, payload, now);
  }

  /**
   * With `| ""` readings, as the inline parser of MessageData.h reads its
   * ids, a status response comes back as exactly the status that was sent
   * (a zero timestamp replaced by the clock), with an empty requestId.
   */
  lemma DefaultingStatusResponseRoundTrip(d: AudioStatus, deviceId: string, payload: string, now: uint32)
    requires payload != []
    requires !d.hasDefaultDevice ==> d.defaultDevice == NO_DEFAULT_DEVICE
    ensures var m := ParseExternalMessageWith(DefaultEmptyReading, payload, Some(JObject(CreateStatusResponse(d, deviceId))), now);
      m.Ok? && m.value.deviceId == deviceId && m.value.messageType == STATUS_MESSAGE && m.value.requestId == "" &&
      ParseAudioStatusWith(DefaultEmptyReading, m.value) ==
        Ok(d.(timestamp := if d.timestamp == 0 then now else d.timestamp))
  {
    StatusResponseRoundTripWith(DefaultEmptyReading, d, deviceId, payload, now);
    assert TextReadBack(DefaultEmptyReading, d.reason) == d.reason;
    assert TextReadBack(DefaultEmptyReading, d.originatingDeviceId) == d.originatingDeviceId;
    assert TextReadBack(DefaultEmptyReading, d.originatingRequestId) == d.originatingRequestId;
  }

  // ---------------------------------------------------------------------------
  // Asset response payload
  // ---------------------------------------------------------------------------

  /** AssetResponseData. */
  datatype AssetResponse = AssetResponse(
    requestId: string, deviceId: string, timestamp: uint32, processName: string, success: bool,
    errorMessage: string, assetDataBase64: string, width: int, height: int, format: string)

  /**
   * AssetResponseData(external): header fields copied, the body read with
   * `| default`, and the metadata, when present and not null, read with
   * `as<T>()` (a missing format is then the text "null").
   */
  function AssetResponseOf(m: ExternalMessage): (r: AssetResponse)
    ensures r.requestId == m.requestId && r.deviceId == m.deviceId && r.timestamp == m.timestamp
    ensures "metadata" !in m.parsedData || m.parsedData["metadata"].JNull? ==>
      r.width == 0 && r.height == 0 && r.format == ""
    ensures "metadata" in m.parsedData && m.parsedData["metadata"].JObject? ==>
      var md := m.parsedData["metadata"];
      r.width == AsInt(Field(md, "width")) && r.height == AsInt(Field(md, "height")) &&
      ("format" !in md.fields ==> r.format == "null") &&
      (Field(md, "format").JString? ==> r.format == Field(md, "format").s)
    ensures "processName" !in m.parsedData ==> r.processName == ""
  {
    var doc := JObject(m.parsedData);
    var metadata := Field(doc, "metadata");
    var hasMetadata := ContainsKey(doc, "metadata") && !metadata.JNull?;
    AssetResponse(m.requestId, m.deviceId, m.timestamp,
                  StringOr(Field(doc, "processName"), ""), BoolOr(Field(doc, "success"), false),
                  StringOr(Field(doc, "errorMessage"), ""), StringOr(Field(doc, "assetData"), ""),
                  if hasMetadata then AsInt(Field(metadata, "width")) else 0,
                  if hasMetadata then AsInt(Field(metadata, "height")) else 0,
                  if hasMetadata then AsString(Field(metadata, "format")) else "")
  }

  /** MessageParser::parseAssetResponseData. */
  function ParseAssetResponseData(m: ExternalMessage): (r: Result<AssetResponse, string>)
    ensures r.Err? <==> m.messageType != ASSET_RESPONSE
    ensures r.Ok? ==> r.value == AssetResponseOf(m)
  {
    if m.messageType != ASSET_RESPONSE then Err("Invalid message type for asset response")
    else Ok(AssetResponseOf(m))
  }

  // ---------------------------------------------------------------------------
  // MessageSerializer::serializeExternalMessage
  // ---------------------------------------------------------------------------

  /** The members of parsedData the serializer copies: all but the five core keys. */
  function ExtraMembers(data: map<string, Json>): (r: map<string, Json>)
    ensures forall k :: k in r <==> k in data && k !in CORE_KEYS
    ensures forall k :: k in r ==> r[k] == data[k]
  {
    map k | k in data && k !in CORE_KEYS :: data[k]
  }

  /** serializeExternalMessage: the document it builds before printing it. */
  function SerializeExternalMessage(m: ExternalMessage): (r: map<string, Json>)
    ensures MESSAGE_TYPE in r && r[MESSAGE_TYPE] == JInt(m.messageType)
    ensures REQUEST_ID in r && r[REQUEST_ID] == JString(m.requestId)
    ensures DEVICE_ID in r && r[DEVICE_ID] == JString(m.deviceId)
    ensures TIMESTAMP in r && r[TIMESTAMP] == JInt(m.timestamp)
    ensures ORIGINATING_DEVICE_ID in r <==> m.originatingDeviceId != ""
    ensures ORIGINATING_DEVICE_ID in r ==> r[ORIGINATING_DEVICE_ID] == JString(m.originatingDeviceId)
    ensures forall k :: k in r && k !in CORE_KEYS ==> k in m.parsedData && r[k] == m.parsedData[k]
    ensures forall k :: k in m.parsedData && k !in CORE_KEYS ==> k in r
  {
    ExtraMembers(m.parsedData)
    + OptionalText(ORIGINATING_DEVICE_ID, m.originatingDeviceId)
    + map[MESSAGE_TYPE := JInt(m.messageType), REQUEST_ID := JString(m.requestId),
          DEVICE_ID := JString(m.deviceId), TIMESTAMP := JInt(m.timestamp)]
  }

  /**
   * Serializing a valid message and parsing the document back with the
   * given reading restores the type, both ids, the timestamp and the
   * members, and marks it validated; the originator is what the reading
   * makes of the member written only when non-empty.
   */
  lemma SerializeParseRoundTripWith(reading: TextReading, m: ExternalMessage, payload: string, now: uint32)
    requires IsValidExternal(m.messageType) && m.timestamp != 0 && payload != []
    ensures var p := ParseExternalMessageWith(reading, payload, Some(JObject(SerializeExternalMessage(m))), now);
      p.Ok? && p.value.messageType == m.messageType && p.value.requestId == m.requestId &&
      p.value.deviceId == m.deviceId && p.value.originatingDeviceId == TextReadBack(reading, m.originatingDeviceId) &&
      p.value.timestamp == m.timestamp && p.value.validated &&
      ExtraMembers(p.value.parsedData) == ExtraMembers(m.parsedData)
  {
    var doc := SerializeExternalMessage(m);
    var p := ParseExternalMessageWith(reading, payload, Some(JObject(doc)), now);
    assert p.Ok?;
    assert Field(JObject(doc), ORIGINATING_DEVICE_ID) == WrittenText(m.originatingDeviceId);
    assert ExtraMembers(p.value.parsedData) == ExtraMembers(m.parsedData);
  }

  /**
   * Serializing a valid message and parsing it back as the firmware does
   * restores every header field except an empty originator, which comes
   * back as "null"; serializing the parsed message again gives the same
   * document exactly when the originator was non-empty.
   */
  lemma SerializeParseRoundTrip(m: ExternalMessage, payload: string, now: uint32)
    requires IsValidExternal(m.messageType) && m.timestamp != 0 && payload != []
    ensures var p := ParseExternalMessage(payload, Some(JObject(SerializeExternalMessage(m))), now);
      p.Ok? && p.value.messageType == m.messageType && p.value.requestId == m.requestId &&
      p.value.deviceId == m.deviceId && p.value.originatingDeviceId == NullIfEmpty(m.originatingDeviceId) &&
      p.value.timestamp == m.timestamp && p.value.validated &&
      (SerializeExternalMessage(p.value) == SerializeExternalMessage(m) <==> m.originatingDeviceId != "")
  {
    SerializeParseRoundTripWith(AsStringReading, m, payload, now);
    var p := ParseExternalMessage(payload, Some(JObject(SerializeExternalMessage(m))), now);
    if m.originatingDeviceId == "" {
      assert ORIGINATING_DEVICE_ID in SerializeExternalMessage(p.value);
      assert ORIGINATING_DEVICE_ID !in SerializeExternalMessage(m);
    }
  }

  /** A message without an originator comes back from the firmware's parser with originator "null". */
  lemma EmptyOriginReadsNull(m: ExternalMessage, payload: string, now: uint32)
    requires IsValidExternal(m.messageType) && m.timestamp != 0 && payload != [] && m.originatingDeviceId == ""
    ensures var p := ParseExternalMessage(payload, Some(JObject(SerializeExternalMessage(m))), now);
      p.Ok? && p.value.originatingDeviceId == "null" &&
      SerializeExternalMessage(p.value)[ORIGINATING_DEVICE_ID] == JString("null")
  {
    SerializeParseRoundTrip(m, payload, now);
  }

  /**
   * With `| ""` readings, as the inline parser of MessageData.h reads the
   * ids, serializing and parsing back restores every header field, and
   * serializing again gives the same document.
   */
  lemma DefaultingSerializeParseRoundTrip(m: ExternalMessage, payload: string, now: uint32)
    requires IsValidExternal(m.messageType) && m.timestamp != 0 && payload != []
    ensures var p := ParseExternalMessageWith(DefaultEmptyReading, payload, Some(JObject(SerializeExternalMessage(m))), now);
      p.Ok? && p.value.messageType == m.messageType && p.value.requestId == m.requestId &&
      p.value.deviceId == m.deviceId && p.value.originatingDeviceId == m.originatingDeviceId &&
      p.value.timestamp == m.timestamp && p.value.validated &&
      SerializeExternalMessage(p.value) == SerializeExternalMessage(m)
  {
    SerializeParseRoundTripWith(DefaultEmptyReading, m, payload, now);
    assert TextReadBack(DefaultEmptyReading, m.originatingDeviceId) == m.originatingDeviceId;
  }

  // ---------------------------------------------------------------------------
  // MessageConverter
  // ---------------------------------------------------------------------------

  /** The internal types the converter produces or reads; any other type is `OtherInternal`. */
  datatype InternalType = InternalInvalid | AudioStateUpdate | InternalAssetResponse | OtherInternal(code: int)

  /**
   * Where an internal message's payload lives.  The converter hands
   * InternalMessage the address of the parse result's value, which is
   * destroyed at the end of its case block: the message keeps either that
   * pointer or a bytewise copy whose String and vector members still point
   * at the buffers the destroyed value freed.  Either way the payload is
   * `Dangling`; `Owned` is a payload the message owns outright.
   */
  datatype Storage = Owned | Dangling

  datatype InternalPayload =
    | NoPayload
    | StatusPayload(status: AudioStatus, storage: Storage)
    | AssetPayload(asset: AssetResponse, storage: Storage)

  /** InternalMessage: type, payload and the clock reading at construction. */
  datatype InternalMessage = InternalMessage(messageType: InternalType, payload: InternalPayload, timestamp: uint32)

  /** getTypedData<AudioStatusData>(): the status, when the payload is one the message owns. */
  function ReadStatus(p: InternalPayload): (r: Option<AudioStatus>)
    ensures r.Some? <==> p.StatusPayload? && p.storage == Owned
    ensures r.Some? ==> r.value == p.status
  {
    if p.StatusPayload? && p.storage == Owned then Some(p.status) else None
  }

  /** getTypedData<AssetResponseData>(): the asset response, when the payload is one the message owns. */
  function ReadAsset(p: InternalPayload): (r: Option<AssetResponse>)
    ensures r.Some? <==> p.AssetPayload? && p.storage == Owned
    ensures r.Some? ==> r.value == p.asset
  {
    if p.AssetPayload? && p.storage == Owned then Some(p.asset) else None
  }

  /** externalToInternal, with the payload kept in the given storage. */
  function ConvertWith(storage: Storage, e: ExternalMessage, now: uint32): (r: seq<InternalMessage>)
    ensures |r| <= 1
    ensures r != [] <==> e.messageType in {STATUS_UPDATE, STATUS_MESSAGE, ASSET_RESPONSE}
    ensures r != [] && e.messageType == ASSET_RESPONSE ==>
      r[0] == InternalMessage(InternalAssetResponse, AssetPayload(AssetResponseOf(e), storage), now)
    ensures r != [] && e.messageType != ASSET_RESPONSE ==>
      r[0].messageType == AudioStateUpdate && r[0].timestamp == now && r[0].payload.StatusPayload? &&
      r[0].payload.storage == storage && ParseAudioStatusData(e) == Ok(r[0].payload.status)
  {
    if e.messageType == STATUS_UPDATE || e.messageType == STATUS_MESSAGE then
      match ParseAudioStatusData(e)
      case Ok(d) => [InternalMessage(AudioStateUpdate, StatusPayload(d, storage), now)]
      case Err(_) => []
    else if e.messageType == ASSET_RESPONSE then
      match ParseAssetResponseData(e)
      case Ok(a) => [InternalMessage(InternalAssetResponse, AssetPayload(a, storage), now)]
      case Err(_) => []
    else []
  }

  /**
   * externalToInternal as written: status types become one audio-state
   * update, an asset response one asset response, everything else nothing;
   * the payload refers to the destroyed parse result, so neither can be read.
   */
  function ExternalToInternal(e: ExternalMessage, now: uint32): (r: seq<InternalMessage>)
    ensures |r| <= 1
    ensures r != [] <==> e.messageType in {STATUS_UPDATE, STATUS_MESSAGE, ASSET_RESPONSE}
    ensures r != [] && e.messageType == ASSET_RESPONSE ==>
      r[0] == InternalMessage(InternalAssetResponse, AssetPayload(AssetResponseOf(e), Dangling), now)
    ensures r != [] && e.messageType != ASSET_RESPONSE ==>
      r[0].messageType == AudioStateUpdate && r[0].timestamp == now && r[0].payload.StatusPayload? &&
      ParseAudioStatusData(e) == Ok(r[0].payload.status)
    ensures r != [] ==> ReadStatus(r[0].payload).None? && ReadAsset(r[0].payload).None?
  {
    ConvertWith(Dangling, e, now)
  }

  /**
   * externalToInternal with the parsed payload copied into the message (a
   * deep copy, as the payload's String and vector members need): the
   * status or asset response the parser produced can be read back.
   */
  function ExternalToInternalCopying(e: ExternalMessage, now: uint32): (r: seq<InternalMessage>)
    ensures |r| <= 1
    ensures r != [] <==> e.messageType in {STATUS_UPDATE, STATUS_MESSAGE, ASSET_RESPONSE}
    ensures r != [] && e.messageType == ASSET_RESPONSE ==>
      r[0].messageType == InternalAssetResponse && r[0].timestamp == now &&
      ReadAsset(r[0].payload) == Some(AssetResponseOf(e))
    ensures r != [] && e.messageType != ASSET_RESPONSE ==>
      r[0].messageType == AudioStateUpdate && r[0].timestamp == now &&
      ReadStatus(r[0].payload).Some? && Ok(ReadStatus(r[0].payload).value) == ParseAudioStatusData(e)
  {
    ConvertWith(Owned, e, now)
  }

  /**
   * internalToExternal: an audio-state update becomes a STATUS_MESSAGE from
   * this device with the internal timestamp; anything else the default
   * (INVALID) message stamped with the clock.
   */
  function InternalToExternal(i: InternalMessage, requestId: string, myDeviceId: string, now: uint32): (r: ExternalMessage)
    ensures i.messageType == AudioStateUpdate ==>
      r == NewExternal(STATUS_MESSAGE, requestId, myDeviceId, i.timestamp)
    ensures i.messageType != AudioStateUpdate ==> r == NewExternal(INVALID, "", "", now)
  {
    match i.messageType
    case AudioStateUpdate => NewExternal(STATUS_MESSAGE, requestId, myDeviceId, i.timestamp)
    case _ => NewExternal(INVALID, "", "", now)
  }

  /** What the firmware sends out is dropped by its own loop filter if it comes back. */
  lemma OwnMessagesIgnored(i: InternalMessage, requestId: string, myDeviceId: string, now: uint32)
    ensures ShouldIgnoreMessage(InternalToExternal(i, requestId, myDeviceId, now), myDeviceId)
  {
  }

  /**
   * Converting out and back in gives an audio-state update for an
   * audio-state update and nothing for anything else; as written, the
   * status it carries cannot be read.
   */
  lemma ConvertRoundTrip(i: InternalMessage, requestId: string, myDeviceId: string, now: uint32, later: uint32)
    ensures var back := ExternalToInternal(InternalToExternal(i, requestId, myDeviceId, now), later);
      (back != [] <==> i.messageType == AudioStateUpdate) &&
      (back != [] ==>
         back[0].messageType == AudioStateUpdate && back[0].payload.status.timestamp == i.timestamp &&
         ReadStatus(back[0].payload).None?)
  {
  }

  /** With the payload copied, the status read back after the round trip carries the internal timestamp. */
  lemma CopyingConvertRoundTrip(i: InternalMessage, requestId: string, myDeviceId: string, now: uint32, later: uint32)
    ensures var back := ExternalToInternalCopying(InternalToExternal(i, requestId, myDeviceId, now), later);
      (back != [] <==> i.messageType == AudioStateUpdate) &&
      (back != [] ==>
         back[0].messageType == AudioStateUpdate && ReadStatus(back[0].payload).Some? &&
         ReadStatus(back[0].payload).value.timestamp == i.timestamp)
  {
  }
}
