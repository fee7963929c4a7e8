/**
 * The hand-off queue between the firmware's tasks and the LVGL thread:
 * producers post fixed-size messages without blocking, and an LVGL timer
 * drains a bounded number of them per tick, dispatching each to the handler
 * registered for its type, then purges the oldest ones when the queue is
 * close to overflowing.  Message types are the integer codes of the handler's
 * enumeration, numbered in the order the type-name table lists them.
 */
module UiQueue {
  import opened Wrappers
  import Messages

  /** Capacity of the FreeRTOS queue, in messages. */
  const QUEUE_SIZE: nat := 128
  /** After draining, more than this many waiting messages trigger a purge. */
  const PURGE_THRESHOLD: nat := 100
  /** A purge discards at most this many of the oldest messages. */
  const PURGE_BATCH: nat := 20
  /** `char device_name[64]` and friends in the message union. */
  const DEVICE_NAME_SIZE: nat := 64

  /** The type-name table, indexed by message type. */
  const TYPE_NAMES: seq<string> := [
    "WIFI_STATUS", "NETWORK_INFO", "OTA_PROGRESS", "FPS_DISPLAY",
    "BUILD_TIME_DISPLAY", "SCREEN_CHANGE", "REQUEST_DATA", "MASTER_VOLUME",
    "SINGLE_VOLUME", "BALANCE_VOLUME", "MASTER_DEVICE", "SINGLE_DEVICE",
    "BALANCE_DEVICES", "SHOW_OTA_SCREEN", "OTA_SCREEN_PROGRESS", "HIDE_OTA_SCREEN",
    "SHOW_STATE_OVERVIEW", "UPDATE_STATE_OVERVIEW", "HIDE_STATE_OVERVIEW", "SD_STATUS",
    "FORMAT_SD_REQUEST", "FORMAT_SD_CONFIRM", "FORMAT_SD_PROGRESS", "FORMAT_SD_COMPLETE",
    "SHOW_OTA_STATUS_INDICATOR", "UPDATE_OTA_STATUS_INDICATOR", "HIDE_OTA_STATUS_INDICATOR",
    "DEBUG_UI_LOG"]
  const UNKNOWN_TYPE_NAME: string := "UNKNOWN"

  const MSG_UPDATE_MASTER_VOLUME: int := 7
  const MSG_UPDATE_SINGLE_VOLUME: int := 8
  const MSG_UPDATE_BALANCE_VOLUME: int := 9
  const MSG_UPDATE_MASTER_DEVICE: int := 10
  const MSG_UPDATE_SINGLE_DEVICE: int := 11
  const MSG_UPDATE_BALANCE_DEVICES: int := 12
  /** The one named type that has no handler registered. */
  const MSG_UPDATE_SD_STATUS: int := 19

  /**
   * A queued message: its type and the part of the payload union the
   * modelled senders fill in.
   */
  datatype Payload = NoPayload | Volume(volume: int) | DeviceNames(names: seq<string>)
  datatype UiMessage = UiMessage(msgType: int, payload: Payload)

  /** Name of a message type for the logs. */
  function MessageTypeName(t: int): (r: string)
    ensures r == UNKNOWN_TYPE_NAME <==> !(0 <= t < |TYPE_NAMES|)
    ensures 0 <= t < |TYPE_NAMES| ==> r == TYPE_NAMES[t]
  {
    if 0 <= t < |TYPE_NAMES| then TYPE_NAMES[t] else UNKNOWN_TYPE_NAME
  }

  /** The first position of `name` in the table from `from` on, or -1. */
  function NameCode(name: string, from: nat): (r: int)
    requires from <= |TYPE_NAMES|
    ensures r == -1 <==> name !in TYPE_NAMES[from..]
    ensures r != -1 ==> from <= r < |TYPE_NAMES| && TYPE_NAMES[r] == name
    decreases |TYPE_NAMES| - from
  {
    if from == |TYPE_NAMES| then -1
    else if TYPE_NAMES[from] == name then from
    else
      assert TYPE_NAMES[from..] == [TYPE_NAMES[from]] + TYPE_NAMES[from + 1..];
      NameCode(name, from + 1)
  }

  /**
   * Names and codes round-trip: a listed name is the name of the code found
   * for it, and any other text has no code and reads back as "UNKNOWN".
   */
  lemma NameCodeRoundTrip(name: string)
    ensures name in TYPE_NAMES ==> MessageTypeName(NameCode(name, 0)) == name
    ensures name !in TYPE_NAMES ==> NameCode(name, 0) == -1 && MessageTypeName(NameCode(name, 0)) == UNKNOWN_TYPE_NAME
  {
    assert TYPE_NAMES[0..] == TYPE_NAMES;
  }

  /** The handler table: every named type except the SD status update. */
  predicate HasHandler(t: int)
  {
    0 <= t < |TYPE_NAMES| && t != MSG_UPDATE_SD_STATUS
  }

  lemma HandledTypesAreNamed(t: int)
    requires HasHandler(t)
    ensures MessageTypeName(t) != UNKNOWN_TYPE_NAME
    ensures MessageTypeName(t) != "SD_STATUS"
  {
    assert forall i :: 0 <= i < |TYPE_NAMES| && i != 19 ==> TYPE_NAMES[i] != "SD_STATUS";
  }

  /** How many messages one tick may dispatch, by the number waiting. */
  function DrainLimit(queueSize: nat): (r: nat)
    ensures 5 <= r <= 15
    ensures queueSize <= 16 ==> r == 5
    ensures 64 < queueSize ==> r == 15
  {
    if queueSize > 64 then 15
    else if queueSize > 32 then 10
    else if queueSize > 16 then 8
    else 5
  }

  /** A fuller queue never gets a smaller budget. */
  lemma DrainLimitMonotone(a: nat, b: nat)
    requires a <= b
    ensures DrainLimit(a) <= DrainLimit(b)
  {
  }

  /**
   * Messages taken off the front in one tick: the loop stops at the budget,
   * when the time budget is spent, or when the queue is empty.  `inTime` is
   * the number of loop tests that found the time budget not yet exhausted
   * (elapsed time only grows, so those tests come first).
   */
  function DrainCount(queueSize: nat, inTime: nat): (n: nat)
    ensures n <= queueSize && n <= DrainLimit(queueSize) && n <= inTime
    ensures n == queueSize || n == DrainLimit(queueSize) || n == inTime
  {
    var limit := DrainLimit(queueSize);
    if queueSize <= limit && queueSize <= inTime then queueSize
    else if limit <= inTime then limit
    else inTime
  }

  /** The messages, in order, that found a handler. */
  function Dispatched(ms: seq<UiMessage>): (r: seq<UiMessage>)
    ensures |r| <= |ms|
    decreases |ms|
  {
    if ms == [] then []
    else (if HasHandler(ms[0].msgType) then [ms[0]] else []) + Dispatched(ms[1..])
  }

  /** Exactly the messages with a handler are delivered. */
  lemma {:induction false} DispatchedMembers(ms: seq<UiMessage>)
    ensures var r := Dispatched(ms);
      (forall i :: 0 <= i < |r| ==> HasHandler(r[i].msgType)) &&
      (forall m :: m in r <==> m in ms && HasHandler(m.msgType))
    decreases |ms|
  {
    if ms != [] {
      DispatchedMembers(ms[1..]);
      var head := if HasHandler(ms[0].msgType) then [ms[0]] else [];
      assert Dispatched(ms) == head + Dispatched(ms[1..]);
      assert forall m :: m in ms <==> m == ms[0] || m in ms[1..];
    }
  }

  /** Dispatching two batches one after the other is dispatching both. */
  lemma {:induction false} DispatchedAppend(a: seq<UiMessage>, b: seq<UiMessage>)
    ensures Dispatched(a + b) == Dispatched(a) + Dispatched(b)
    decreases |a|
  {
    if a != [] {
      var head := if HasHandler(a[0].msgType) then [a[0]] else [];
      assert (a + b)[0] == a[0] && (a + b)[1..] == a[1..] + b;
      assert Dispatched(a + b) == head + Dispatched(a[1..] + b);
      DispatchedAppend(a[1..], b);
      assert Dispatched(a) == head + Dispatched(a[1..]);
    } else {
      assert a + b == b;
    }
  }

  /** Messages of handled types are all delivered, in queue order. */
  lemma {:induction false} DispatchedAllHandled(ms: seq<UiMessage>)
    requires forall i :: 0 <= i < |ms| ==> HasHandler(ms[i].msgType)
    ensures Dispatched(ms) == ms
    decreases |ms|
  {
    if ms != [] {
      DispatchedAllHandled(ms[1..]);
    }
  }

  /** The waiting messages after the overflow protection has run. */
  function Purged(waiting: seq<UiMessage>): (r: seq<UiMessage>)
    ensures |r| <= |waiting| && r == waiting[|waiting| - |r|..]
    ensures |waiting| <= PURGE_THRESHOLD ==> r == waiting
    ensures |waiting| > PURGE_THRESHOLD ==> |r| == |waiting| - PURGE_BATCH
  {
    if |waiting| > PURGE_THRESHOLD then waiting[PURGE_BATCH..] else waiting
  }

  /** The queue after one tick: drained from the front, then purged. */
  function AfterTick(queue: seq<UiMessage>, inTime: nat): (r: seq<UiMessage>)
  {
    Purged(queue[DrainCount(|queue|, inTime)..])
  }

  /** One tick on a queue within capacity leaves at most 108 messages waiting. */
  lemma AfterTickBound(queue: seq<UiMessage>, inTime: nat)
    requires |queue| <= QUEUE_SIZE
    ensures |AfterTick(queue, inTime)| <= QUEUE_SIZE - PURGE_BATCH
    ensures |AfterTick(queue, inTime)| <= |queue|
  {
  }

  /**
   * A tick only removes the oldest messages: what is left is a suffix of the
   * queue, and all that went ahead of it was either dispatched or dropped.
   */
  lemma AfterTickSuffix(queue: seq<UiMessage>, inTime: nat)
    ensures var r := AfterTick(queue, inTime); r == queue[|queue| - |r|..]
  {
    var n := DrainCount(|queue|, inTime);
    var rest := queue[n..];
    var r := Purged(rest);
    assert r == rest[|rest| - |r|..];
    assert queue[|queue| - |r|..] == rest[|rest| - |r|..];
  }

  /**
   * With time and budget to spare, a queue holding only handled messages is
   * delivered completely and in order.
   */
  lemma FifoDelivery(queue: seq<UiMessage>, inTime: nat)
    requires |queue| <= DrainLimit(|queue|) && |queue| <= inTime
    requires forall i :: 0 <= i < |queue| ==> HasHandler(queue[i].msgType)
    ensures Dispatched(queue[..DrainCount(|queue|, inTime)]) == queue
    ensures AfterTick(queue, inTime) == []
  {
    assert queue[..|queue|] == queue;
    DispatchedAllHandled(queue);
  }

  /** Taking one more message from the queue dispatches it after the earlier ones, if it has a handler. */
  lemma DrainStep(queue: seq<UiMessage>, processed: nat)
    requires processed < |queue|
    ensures Dispatched(queue[..processed + 1]) ==
      Dispatched(queue[..processed]) + if HasHandler(queue[processed].msgType) then [queue[processed]] else []
  {
    assert queue[..processed + 1] == queue[..processed] + [queue[processed]];
    DispatchedAppend(queue[..processed], [queue[processed]]);
    assert Dispatched([queue[processed]]) == if HasHandler(queue[processed].msgType) then [queue[processed]] else [];
  }

  /** The drain loop of the timer callback. */
  method DrainQueue(queue: seq<UiMessage>, inTime: nat) returns (rest: seq<UiMessage>, delivered: seq<UiMessage>)
    ensures rest == queue[DrainCount(|queue|, inTime)..]
    ensures delivered == Dispatched(queue[..DrainCount(|queue|, inTime)])
  {
    var maxMessages := DrainLimit(|queue|);
    var processed := 0;
    rest := queue;
    delivered := [];
    while processed < maxMessages && processed < inTime && rest != []
      invariant processed <= |queue| && processed <= maxMessages && processed <= inTime
      invariant rest == queue[processed..]
      invariant delivered == Dispatched(queue[..processed])
      decreases |rest|
    {
      var message := rest[0];
      rest := rest[1..];
      DrainStep(queue, processed);
      processed := processed + 1;
      if HasHandler(message.msgType) {
        delivered := delivered + [message];
      }
    }
  }

  /** The overflow protection of the timer callback. */
  method PurgeQueue(waiting: seq<UiMessage>) returns (rest: seq<UiMessage>)
    ensures rest == Purged(waiting)
  {
    rest := waiting;
    if |waiting| > PURGE_THRESHOLD {
      var i := 0;
      while i < PURGE_BATCH && rest != []
        invariant i <= PURGE_BATCH && i <= |waiting| && rest == waiting[i..]
        decreases PURGE_BATCH - i
      {
        rest := rest[1..];
        i := i + 1;
      }
    }
  }

  /** The tab view's active tab picks the volume message; anything else is master. */
  function TabVolumeMessageType(activeTab: Option<nat>): (t: int)
    ensures t == MSG_UPDATE_MASTER_VOLUME || t == MSG_UPDATE_SINGLE_VOLUME || t == MSG_UPDATE_BALANCE_VOLUME
    ensures t == MSG_UPDATE_SINGLE_VOLUME <==> activeTab == Some(1)
    ensures t == MSG_UPDATE_BALANCE_VOLUME <==> activeTab == Some(2)
    ensures HasHandler(t)
  {
    match activeTab
    case Some(0) => MSG_UPDATE_MASTER_VOLUME
    case Some(1) => MSG_UPDATE_SINGLE_VOLUME
    case Some(2) => MSG_UPDATE_BALANCE_VOLUME
    case _ => MSG_UPDATE_MASTER_VOLUME
  }

  /** A device name as the message union keeps it; a null name is empty. */
  function DeviceNameField(name: Option<string>): (r: string)
    ensures Messages.Fits(r, DEVICE_NAME_SIZE)
    ensures name.None? ==> r == ""
    ensures name.Some? ==> |r| <= |name.value| && r == name.value[..|r|]
    ensures name.Some? && Messages.Fits(name.value, DEVICE_NAME_SIZE) ==> r == name.value
  {
    match name
    case None => ""
    case Some(s) => Messages.CopyBounded(s, DEVICE_NAME_SIZE)
  }

  /** The signal-quality labels of the state overview. */
  datatype SignalQuality = Excellent | Good | Fair | Poor | VeryPoor
  {
    function Label(): string
    {
      match this
      case Excellent => "Excellent"
      case Good => "Good"
      case Fair => "Fair"
      case Poor => "Poor"
      case VeryPoor => "Very Poor"
    }

    /** 0 for the best label, 4 for the worst. */
    function Rank(): nat
    {
      match this
      case Excellent => 0
      case Good => 1
      case Fair => 2
      case Poor => 3
      case VeryPoor => 4
    }
  }

  /** Classification of a WiFi RSSI in dBm. */
  function SignalStrength(rssi: int): (q: SignalQuality)
    ensures q == Excellent <==> rssi > -50
    ensures q == VeryPoor <==> rssi <= -80
    ensures q.Rank() == 0 || rssi <= -50 - 10 * (q.Rank() - 1)
    ensures q.Rank() == 4 || rssi > -50 - 10 * q.Rank()
  {
    if rssi > -50 then Excellent
    else if rssi > -60 then Good
    else if rssi > -70 then Fair
    else if rssi > -80 then Poor
    else VeryPoor
  }

  /** A stronger signal never gets a worse label. */
  lemma SignalStrengthMonotone(weaker: int, stronger: int)
    requires weaker <= stronger
    ensures SignalStrength(stronger).Rank() <= SignalStrength(weaker).Rank()
  {
  }

  /** Five distinct labels. */
  lemma SignalLabelsDistinct(a: SignalQuality, b: SignalQuality)
    requires a.Label() == b.Label()
    ensures a == b
  {
  }

  /**
   * The handler's module state: whether the queue handle exists, the messages
   * waiting in it (oldest first), and the messages handed to their handlers so
   * far, in delivery order.
   */
  class MessageHandler {
    var queueCreated: bool
    var queue: seq<UiMessage>
    var delivered: seq<UiMessage>
    /** The LVGL timers running `processMessageQueue`; init creates them and nothing deletes them. */
    var timers: nat
    /**
     * Ticks that ran with the queue handle null.  Each one hands NULL to
     * `uxQueueMessagesWaiting`, which FreeRTOS rejects with `configASSERT`.
     */
    var nullQueueTicks: nat

    ghost predicate Valid()
      reads this
    {
      |queue| <= QUEUE_SIZE && (!queueCreated ==> queue == [])
    }

    /** No timer is running while the queue handle is null. */
    predicate TimerSafe()
      reads this
    {
      timers > 0 ==> queueCreated
    }

    /** Before init the queue handle is null and no timer runs. */
    constructor ()
      ensures Valid() && TimerSafe()
      ensures !queueCreated && queue == [] && delivered == [] && timers == 0 && nullQueueTicks == 0
    {
      queueCreated := false;
      queue := [];
      delivered := [];
      timers := 0;
      nullQueueTicks := 0;
    }

    /**
     * Creates a fresh queue (the old handle, if any, is replaced) and, when
     * the display exists, one more processing timer; the result reports
     * whether the queue, the display and the timer all exist.
     */
    method Init(queueAllocated: bool, displayAvailable: bool, timerCreated: bool) returns (ok: bool)
      modifies this
      ensures Valid()
      ensures queueCreated == queueAllocated && queue == [] && delivered == old(delivered)
      ensures ok <==> queueAllocated && displayAvailable && timerCreated
      ensures timers == old(timers) + (if ok then 1 else 0) && nullQueueTicks == old(nullQueueTicks)
      ensures queueAllocated && old(TimerSafe()) ==> TimerSafe()
    {
      queue := [];
      queueCreated := queueAllocated;
      if !queueAllocated {
        return false;
      }
      if !displayAvailable {
        return false;
      }
      if timerCreated {
        timers := timers + 1;
      }
      ok := timerCreated;
    }

    /** Deletes the queue; waiting messages are lost and the timers keep running. */
    method Deinit()
      requires Valid()
      modifies this
      ensures Valid()
      ensures !queueCreated && queue == [] && delivered == old(delivered)
      ensures timers == old(timers) && nullQueueTicks == old(nullQueueTicks)
      ensures old(timers) > 0 ==> !TimerSafe()
    {
      if queueCreated {
        queueCreated := false;
        queue := [];
      }
    }

    /** Deinit as evidently intended: the processing timers are deleted with the queue. */
    method DeinitStoppingTimers()
      requires Valid()
      modifies this
      ensures Valid() && TimerSafe()
      ensures !queueCreated && queue == [] && delivered == old(delivered)
      ensures timers == 0 && nullQueueTicks == old(nullQueueTicks)
    {
      Deinit();
      timers := 0;
    }

    /** Non-blocking post: fails on a null queue, a null message or a full queue. */
    method SendMessage(message: Option<UiMessage>) returns (ok: bool)
      requires Valid()
      modifies this
      ensures Valid()
      ensures ok <==> old(queueCreated) && message.Some? && |old(queue)| < QUEUE_SIZE
      ensures ok ==> queue == old(queue) + [message.value]
      ensures !ok ==> queue == old(queue)
      ensures queueCreated == old(queueCreated) && delivered == old(delivered)
      ensures timers == old(timers) && nullQueueTicks == old(nullQueueTicks)
    {
      if !queueCreated || message.None? {
        return false;
      }
      if |queue| >= QUEUE_SIZE {
        return false;
      }
      queue := queue + [message.value];
      ok := true;
    }

    /**
     * One run of the timer callback: on a null queue handle the run only
     * records the failed assertion; otherwise it drains and purges.
     */
    method ProcessMessageQueue(inTime: nat)
      requires Valid()
      modifies this
      ensures Valid()
      ensures !old(queueCreated) ==>
        nullQueueTicks == old(nullQueueTicks) + 1 && queue == old(queue) && delivered == old(delivered)
      ensures old(queueCreated) ==>
        queue == AfterTick(old(queue), inTime) &&
        delivered == old(delivered) + Dispatched(old(queue)[..DrainCount(|old(queue)|, inTime)]) &&
        nullQueueTicks == old(nullQueueTicks)
      ensures queueCreated == old(queueCreated) && timers == old(timers)
    {
      if !queueCreated {
        nullQueueTicks := nullQueueTicks + 1;
        return;
      }
      var rest, handled := DrainQueue(queue, inTime);
      rest := PurgeQueue(rest);
      AfterTickBound(queue, inTime);
      queue := rest;
      delivered := delivered + handled;
    }

    /** `updateMasterVolume`, `updateSingleVolume` and `updateBalanceVolume`. */
    method UpdateVolume(msgType: int, volume: int) returns (ok: bool)
      requires msgType == MSG_UPDATE_MASTER_VOLUME || msgType == MSG_UPDATE_SINGLE_VOLUME || msgType == MSG_UPDATE_BALANCE_VOLUME
      requires Valid()
      modifies this
      ensures Valid()
      ensures ok <==> old(queueCreated) && |old(queue)| < QUEUE_SIZE
      ensures queue == if ok then old(queue) + [UiMessage(msgType, Volume(volume))] else old(queue)
      ensures queueCreated == old(queueCreated) && delivered == old(delivered)
      ensures timers == old(timers) && nullQueueTicks == old(nullQueueTicks)
    {
      ok := SendMessage(Some(UiMessage(msgType, Volume(volume))));
    }

    /** Volume update routed to the active tab (`None`: no tab view). */
    method UpdateCurrentTabVolume(activeTab: Option<nat>, volume: int) returns (ok: bool)
      requires Valid()
      modifies this
      ensures Valid()
      ensures ok <==> old(queueCreated) && |old(queue)| < QUEUE_SIZE
      ensures queue == if ok then old(queue) + [UiMessage(TabVolumeMessageType(activeTab), Volume(volume))] else old(queue)
      ensures queueCreated == old(queueCreated) && delivered == old(delivered)
      ensures timers == old(timers) && nullQueueTicks == old(nullQueueTicks)
    {
      ok := UpdateVolume(TabVolumeMessageType(activeTab), volume);
    }

    /** Device-name update for one tab; the name is cut to fit its buffer. */
    method UpdateDevice(msgType: int, deviceName: Option<string>) returns (ok: bool)
      requires msgType == MSG_UPDATE_MASTER_DEVICE || msgType == MSG_UPDATE_SINGLE_DEVICE
      requires Valid()
      modifies this
      ensures Valid()
      ensures ok <==> old(queueCreated) && |old(queue)| < QUEUE_SIZE
      ensures queue == if ok then old(queue) + [UiMessage(msgType, DeviceNames([DeviceNameField(deviceName)]))] else old(queue)
      ensures queueCreated == old(queueCreated) && delivered == old(delivered)
      ensures timers == old(timers) && nullQueueTicks == old(nullQueueTicks)
    {
      ok := SendMessage(Some(UiMessage(msgType, DeviceNames([DeviceNameField(deviceName)]))));
    }

    method UpdateBalanceDevices(device1: Option<string>, device2: Option<string>) returns (ok: bool)
      requires Valid()
      modifies this
      ensures Valid()
      ensures ok <==> old(queueCreated) && |old(queue)| < QUEUE_SIZE
      ensures queue == if ok then old(queue) + [UiMessage(MSG_UPDATE_BALANCE_DEVICES, DeviceNames([DeviceNameField(device1), DeviceNameField(device2)]))] else old(queue)
      ensures queueCreated == old(queueCreated) && delivered == old(delivered)
      ensures timers == old(timers) && nullQueueTicks == old(nullQueueTicks)
    {
      ok := SendMessage(Some(UiMessage(MSG_UPDATE_BALANCE_DEVICES, DeviceNames([DeviceNameField(device1), DeviceNameField(device2)]))));
    }
  }

  // ---------------------------------------------------------------------------
  // Finding: deinit leaves the processing timer running
  // ---------------------------------------------------------------------------

  /**
   * As written: after a successful init and a deinit the timer still fires,
   * and its run meets the null queue handle.
   */
  method TickAfterDeinit() returns (nullTicks: nat, timersLeft: nat)
    ensures nullTicks == 1 && timersLeft == 1
  {
    var h := new MessageHandler();
    var _ := h.Init(true, true, true);
    h.Deinit();
    h.ProcessMessageQueue(0);
    nullTicks := h.nullQueueTicks;
    timersLeft := h.timers;
  }

  /** With the timers deleted at deinit, no timer is left to run on the null handle. */
  method NoTickAfterStoppingDeinit() returns (nullTicks: nat, timersLeft: nat)
    ensures nullTicks == 0 && timersLeft == 0
  {
    var h := new MessageHandler();
    var _ := h.Init(true, true, true);
    h.DeinitStoppingTimers();
    nullTicks := h.nullQueueTicks;
    timersLeft := h.timers;
  }
}
