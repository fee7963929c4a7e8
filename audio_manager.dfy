/**
 * AudioManager: the one owner of the audio application state.  It replaces
 * the status map when the host reports a snapshot, re-resolves the selection
 * slots by name, auto-selects devices for the current tab, applies volume
 * and mute commands, and tells its subscribers about every change.
 *
 * The clock (`millis`, `getMillis`) is the parameter `now`; whether the
 * messaging system is healthy enough to publish is the parameter `healthy`.
 * A subscriber is identified by a number; invoking it with an event is
 * recorded as a `Delivery`, in call order.
 */
module AudioManagement {
  import opened Wrappers
  import opened StringOrder
  import opened AudioData

  /** `constrain(v, 0, 100)`. */
  function Clamp(v: int): (r: int)
    ensures 0 <= r <= 100
    ensures 0 <= v <= 100 ==> r == v
    ensures v < 0 ==> r == 0
    ensures v > 100 ==> r == 100
  {
    if v < 0 then 0 else if v > 100 then 100 else v
  }

  /** One invocation of a subscribed callback. */
  datatype Delivery = Delivery(callback: nat, event: StateChangeEvent)

  /** notifyStateChange: the event handed to every callback, in subscription order. */
  function Fanout(callbacks: seq<nat>, e: StateChangeEvent): (r: seq<Delivery>)
    ensures |r| == |callbacks|
    ensures forall i :: 0 <= i < |r| ==> r[i] == Delivery(callbacks[i], e)
  {
    if callbacks == [] then []
    else
      var n := |callbacks| - 1;
      Fanout(callbacks[..n], e) + [Delivery(callbacks[n], e)]
  }

  /** `after` is `before` followed only by selection-changed deliveries. */
  predicate SelectionsAppended(before: seq<Delivery>, after: seq<Delivery>)
  {
    |before| <= |after| && after[..|before|] == before &&
    forall i :: |before| <= i < |after| ==> after[i].event.kind == SelectionChanged
  }

  lemma SelectionsAppendedTransitive(a: seq<Delivery>, b: seq<Delivery>, c: seq<Delivery>)
    requires SelectionsAppended(a, b) && SelectionsAppended(b, c)
    ensures SelectionsAppended(a, c)
  {
    assert c[..|a|] == c[..|b|][..|a|];
  }

  // ---------------------------------------------------------------------------
  // findBestDeviceToSelect
  // ---------------------------------------------------------------------------

  /** The keys among `keys` whose entries are not stale. */
  function FreshKeys(m: map<string, AudioLevel>, keys: set<string>): set<string>
  {
    set k | k in keys && k in m && !m[k].stale
  }

  /**
   * The device findBestDeviceToSelect names: "" for an empty map, else the
   * first non-stale entry in map order, else the first entry.
   */
  ghost function BestDevice(m: map<string, AudioLevel>): string
  {
    if m.Keys == {} then ""
    else if FreshKeys(m, m.Keys) != {} then m[Least(FreshKeys(m, m.Keys))].processName
    else m[Least(m.Keys)].processName
  }

  /** On a keyed map the best device is one of its keys, a non-stale one when there is one. */
  lemma BestDeviceIsKey(m: map<string, AudioLevel>)
    requires Keyed(m) && m.Keys != {}
    ensures BestDevice(m) in m
    ensures FreshKeys(m, m.Keys) != {} ==> !m[BestDevice(m)].stale
  {
  }

  /** The earlier in map order of a candidate and a new key. */
  function Earlier(first: Option<string>, k: string): (r: Option<string>)
    ensures r.Some?
  {
    if first.None? || Less(k, first.value) then Some(k) else first
  }

  /** `first` is the first key of `seen` (null when `seen` is empty). */
  predicate FirstOf(first: Option<string>, seen: set<string>)
  {
    (first.None? <==> seen == {}) && (first.Some? ==> IsLeast(first.value, seen))
  }

  lemma EarlierStep(first: Option<string>, seen: set<string>, k: string)
    requires FirstOf(first, seen) && k !in seen
    ensures FirstOf(Earlier(first, k), seen + {k})
  {
    if first.Some? {
      LeastInsert(first.value, seen, k);
    } else {
      assert seen + {k} == {k};
    }
  }

  lemma FreshStep(m: map<string, AudioLevel>, seen: set<string>, k: string)
    requires k in m
    ensures !m[k].stale ==> FreshKeys(m, seen + {k}) == FreshKeys(m, seen) + {k}
    ensures m[k].stale ==> FreshKeys(m, seen + {k}) == FreshKeys(m, seen)
  {
  }

  /** The scan has visited every key but `rest`, and holds the first key and first non-stale key seen. */
  predicate Scanned(m: map<string, AudioLevel>, rest: set<string>, first: Option<string>, firstFresh: Option<string>)
  {
    rest <= m.Keys && FirstOf(first, m.Keys - rest) && FirstOf(firstFresh, FreshKeys(m, m.Keys - rest))
  }

  /** Visiting one more key. */
  lemma ScanStep(m: map<string, AudioLevel>, rest: set<string>, first: Option<string>, firstFresh: Option<string>, k: string)
    requires Scanned(m, rest, first, firstFresh) && k in rest
    ensures Scanned(m, rest - {k}, Earlier(first, k), if m[k].stale then firstFresh else Earlier(firstFresh, k))
  {
    var seen := m.Keys - rest;
    assert m.Keys - (rest - {k}) == seen + {k};
    EarlierStep(first, seen, k);
    FreshStep(m, seen, k);
    if !m[k].stale {
      EarlierStep(firstFresh, FreshKeys(m, seen), k);
    }
  }

  /** Once every key is seen, the two candidates give the best device. */
  lemma FirstsGiveBest(m: map<string, AudioLevel>, first: Option<string>, firstFresh: Option<string>)
    requires m.Keys != {} && Scanned(m, {}, first, firstFresh)
    ensures firstFresh.Some? ==> firstFresh.value in m && m[firstFresh.value].processName == BestDevice(m)
    ensures firstFresh.None? ==> first.value in m && m[first.value].processName == BestDevice(m)
  {
    assert m.Keys - {} == m.Keys;
    if firstFresh.Some? {
      LeastUnique(firstFresh.value, Least(FreshKeys(m, m.Keys)), FreshKeys(m, m.Keys));
    } else {
      LeastUnique(first.value, Least(m.Keys), m.Keys);
    }
  }

  /** findBestDeviceToSelect: one pass over the map, keeping the first entry and the first non-stale entry. */
  method FindBestDeviceToSelect(m: map<string, AudioLevel>) returns (r: string)
    ensures r == BestDevice(m)
  {
    if m.Keys == {} {
      return "";
    }
    var rest := m.Keys;
    var first: Option<string> := None;
    var firstFresh: Option<string> := None;
    assert m.Keys - rest == {};
    while rest != {}
      invariant Scanned(m, rest, first, firstFresh)
      decreases |rest|
    {
      var k :| k in rest;
      ScanStep(m, rest, first, firstFresh, k);
      first := Earlier(first, k);
      if !m[k].stale {
        firstFresh := Earlier(firstFresh, k);
      }
      rest := rest - {k};
    }
    FirstsGiveBest(m, first, firstFresh);
    if firstFresh.Some? {
      r := m[firstFresh.value].processName;
    } else {
      r := m[first.value].processName;
    }
  }

  /** refreshDevicePointers, for one slot: look the old name up in the new map; an empty name gives null. */
  function Resolve(m: map<string, AudioLevel>, name: string): (r: Slot)
    ensures r.Some? <==> name != "" && name in m
    ensures r.Some? ==> r.value == name
  {
    if name == "" then None else FindDevice(m, name)
  }

  /** The state right after onAudioStatusReceived has replaced the map and refreshed the slots. */
  function Refreshed(s: AppState, newStatus: AudioStatus, now: nat): (r: AppState)
    ensures NoDangling(r)
    ensures r.currentStatus == newStatus.(timestamp := now) && r.currentTab == s.currentTab
  {
    var m := newStatus.audioDevices;
    s.(currentStatus := newStatus.(timestamp := now),
       primary := Resolve(m, SlotName(s, s.primary)), single := Resolve(m, SlotName(s, s.single)),
       device1 := Resolve(m, SlotName(s, s.device1)), device2 := Resolve(m, SlotName(s, s.device2)))
  }

  /** On keyed maps a slot survives the refresh exactly when its name is still in the new map. */
  lemma RefreshKeepsNames(s: AppState, newStatus: AudioStatus, now: nat)
    requires NoDangling(s) && Keyed(s.currentStatus.audioDevices)
    ensures var r := Refreshed(s, newStatus, now);
      (s.single.Some? && s.single.value != "" && s.single.value in newStatus.audioDevices ==> r.single == s.single) &&
      (s.single.None? || s.single.value !in newStatus.audioDevices ==> r.single.None?) &&
      (s.device1.Some? && s.device1.value != "" && s.device1.value in newStatus.audioDevices ==> r.device1 == s.device1) &&
      (s.device1.None? || s.device1.value !in newStatus.audioDevices ==> r.device1.None?)
  {
  }

  /** The status after setDeviceVolume has applied an already clamped volume. */
  function VolumeSet(status: AudioStatus, deviceName: string, v: int, now: nat): (r: AudioStatus)
    ensures deviceName != "" ==> deviceName in r.audioDevices && r.audioDevices[deviceName].volume == v
    ensures deviceName != "" && deviceName in status.audioDevices ==>
      r.audioDevices[deviceName] == status.audioDevices[deviceName].(volume := v, lastUpdate := now, stale := false)
    ensures deviceName != "" && deviceName !in status.audioDevices ==>
      r.audioDevices[deviceName] == AudioLevel(deviceName, deviceName, v, false, now, false, "")
    ensures deviceName != "" ==> r.audioDevices.Keys == status.audioDevices.Keys + {deviceName}
    ensures deviceName != "" ==> forall k :: k in status.audioDevices && k != deviceName ==>
      r.audioDevices[k] == status.audioDevices[k]
    ensures deviceName != "" ==> r.defaultDevice == status.defaultDevice && r.hasDefaultDevice == status.hasDefaultDevice
    ensures deviceName == "" ==> r.audioDevices == status.audioDevices && r.defaultDevice.volume == v
    ensures deviceName == "" ==> r.defaultDevice == status.defaultDevice.(volume := r.defaultDevice.volume)
    ensures r.timestamp == status.timestamp && r.hasDefaultDevice == status.hasDefaultDevice
  {
    var m := status.audioDevices;
    if deviceName == "" then status.(defaultDevice := status.defaultDevice.(volume := v))
    else if deviceName in m then status.(audioDevices := m[deviceName := m[deviceName].(volume := v, lastUpdate := now, stale := false)])
    else status.(audioDevices := m[deviceName := AudioLevel(deviceName, deviceName, v, false, now, false, "")])
  }

  /** Setting a volume leaves every selection slot live. */
  lemma VolumeSetKeepsSlots(s: AppState, deviceName: string, v: int, now: nat)
    requires NoDangling(s)
    ensures NoDangling(s.(currentStatus := VolumeSet(s.currentStatus, deviceName, v, now), lastUpdateTime := now))
  {
    var r := VolumeSet(s.currentStatus, deviceName, v, now);
    assert s.currentStatus.audioDevices.Keys <= r.audioDevices.Keys;
  }

  /** One entry with its mute flag set. */
  function WithMuted(m: map<string, AudioLevel>, k: string, muted: bool): (r: map<string, AudioLevel>)
    requires k in m
    ensures r.Keys == m.Keys && r[k] == m[k].(isMuted := muted)
    ensures forall j :: j in m && j != k ==> r[j] == m[j]
  {
    m[k := m[k].(isMuted := muted)]
  }

  /** One entry with its volume set. */
  function WithVolume(m: map<string, AudioLevel>, k: string, v: int): (r: map<string, AudioLevel>)
    requires k in m
    ensures r.Keys == m.Keys && r[k] == m[k].(volume := v)
    ensures forall j :: j in m && j != k ==> r[j] == m[j]
  {
    m[k := m[k].(volume := v)]
  }

  /** The status after muteDevice or unmuteDevice has found its target. */
  function MuteSet(status: AudioStatus, deviceName: string, muted: bool): (r: AudioStatus)
    requires deviceName != "" ==> deviceName in status.audioDevices
    ensures deviceName != "" ==> r.audioDevices.Keys == status.audioDevices.Keys
    ensures deviceName != "" ==> r.audioDevices[deviceName] == status.audioDevices[deviceName].(isMuted := muted)
    ensures deviceName != "" ==> forall k :: k in status.audioDevices && k != deviceName ==>
      r.audioDevices[k] == status.audioDevices[k]
    ensures deviceName != "" ==> r.defaultDevice == status.defaultDevice
    ensures deviceName == "" ==> r.audioDevices == status.audioDevices && r.defaultDevice == status.defaultDevice.(isMuted := muted)
    ensures r.timestamp == status.timestamp && r.hasDefaultDevice == status.hasDefaultDevice
  {
    var m := status.audioDevices;
    if deviceName == "" then status.(defaultDevice := status.defaultDevice.(isMuted := muted))
    else status.(audioDevices := m[deviceName := m[deviceName].(isMuted := muted)])
  }

  /** Muting and then unmuting a device restores it. */
  lemma MuteUnmuteRestores(status: AudioStatus, deviceName: string)
    requires deviceName != "" ==> deviceName in status.audioDevices
    ensures deviceName != "" ==>
      MuteSet(MuteSet(status, deviceName, true), deviceName, status.audioDevices[deviceName].isMuted) == status
    ensures deviceName == "" ==> MuteSet(MuteSet(status, "", true), "", status.defaultDevice.isMuted) == status
  {
    if deviceName != "" {
      var r := MuteSet(MuteSet(status, deviceName, true), deviceName, status.audioDevices[deviceName].isMuted);
      assert r.audioDevices == status.audioDevices;
    }
  }

  // ---------------------------------------------------------------------------
  // The manager
  // ---------------------------------------------------------------------------

  // ---------------------------------------------------------------------------
  // Auto-selection
  // ---------------------------------------------------------------------------

  /** A null slot filled with the best device when that names an entry; a set slot is left alone. */
  ghost function Filled(m: map<string, AudioLevel>, slot: Slot): (r: Slot)
    ensures slot.Some? ==> r == slot
    ensures slot.None? && r.Some? ==> r.value in m && r.value == BestDevice(m)
  {
    if slot.None? && BestDevice(m) != "" then FindDevice(m, BestDevice(m)) else slot
  }

  /** A non-empty keyed map with no unnamed entry: the maps on which findBestDeviceToSelect always finds a device. */
  predicate Named(m: map<string, AudioLevel>)
  {
    Keyed(m) && m.Keys != {} && "" !in m
  }

  /** On a named map, filling always succeeds. */
  lemma FilledFills(m: map<string, AudioLevel>, slot: Slot)
    requires Named(m)
    ensures Filled(m, slot).Some?
  {
    BestDeviceIsKey(m);
  }

  /** Only null slots change, the map, the tab, the time and the primary slot never do. */
  predicate SlotsKept(s: AppState, r: AppState)
  {
    r.currentStatus == s.currentStatus && r.currentTab == s.currentTab &&
    r.lastUpdateTime == s.lastUpdateTime && r.primary == s.primary &&
    (s.single.Some? ==> r.single == s.single) &&
    (s.device1.Some? ==> r.device1 == s.device1) &&
    (s.device2.Some? ==> r.device2 == s.device2)
  }

  /**
   * The selection autoSelectDeviceIfNeeded leaves: in the Single tab a null
   * single slot, in the Balance tab each null balance slot, takes the best
   * device; other tabs are left alone.
   */
  ghost function AutoSelected(s: AppState): (r: AppState)
    ensures SlotsKept(s, r)
    ensures NoDangling(s) ==> NoDangling(r)
    ensures s.currentTab != BALANCE ==> r.device1 == s.device1 && r.device2 == s.device2
    ensures s.currentTab != SINGLE ==> r.single == s.single
  {
    var m := s.currentStatus.audioDevices;
    if s.currentTab == SINGLE then s.(single := Filled(m, s.single))
    else if s.currentTab == BALANCE then s.(device1 := Filled(m, s.device1), device2 := Filled(m, s.device2))
    else s
  }

  /** On a non-empty keyed map the slots of the Single or Balance tab end up set. */
  lemma AutoSelectFillsTab(s: AppState)
    requires Named(s.currentStatus.audioDevices)
    ensures s.currentTab == SINGLE ==> AutoSelected(s).single.Some?
    ensures s.currentTab == BALANCE ==> AutoSelected(s).device1.Some? && AutoSelected(s).device2.Some?
    ensures s.currentTab == SINGLE || s.currentTab == BALANCE ==> HasValidSelection(AutoSelected(s))
  {
    var m := s.currentStatus.audioDevices;
    FilledFills(m, s.single);
    FilledFills(m, s.device1);
    FilledFills(m, s.device2);
  }

  /** The notifications autoSelectDeviceIfNeeded sends: one selectionChanged per tab that got a slot filled. */
  ghost function AutoSelectNotices(s: AppState, callbacks: seq<nat>): seq<Delivery>
  {
    var r := AutoSelected(s);
    if s.currentTab == SINGLE && s.single.None? && r.single.Some? then
      Fanout(callbacks, SelectionChangedEvent(BestDevice(s.currentStatus.audioDevices)))
    else if s.currentTab == BALANCE && ((s.device1.None? && r.device1.Some?) || (s.device2.None? && r.device2.Some?)) then
      Fanout(callbacks, SelectionChangedEvent(SlotName(r, r.device1)))
    else []
  }

  /** A fan-out of a selection-changed event is a selections-only extension. */
  lemma FanoutSelections(before: seq<Delivery>, callbacks: seq<nat>, device: string)
    ensures SelectionsAppended(before, before + Fanout(callbacks, SelectionChangedEvent(device)))
  {
    var after := before + Fanout(callbacks, SelectionChangedEvent(device));
    assert after[..|before|] == before;
  }

  lemma AutoSelectNoticesAppend(before: seq<Delivery>, s: AppState, callbacks: seq<nat>)
    ensures SelectionsAppended(before, before + AutoSelectNotices(s, callbacks))
  {
    var r := AutoSelected(s);
    if s.currentTab == SINGLE && s.single.None? && r.single.Some? {
      FanoutSelections(before, callbacks, BestDevice(s.currentStatus.audioDevices));
    } else if s.currentTab == BALANCE && ((s.device1.None? && r.device1.Some?) || (s.device2.None? && r.device2.Some?)) {
      FanoutSelections(before, callbacks, SlotName(r, r.device1));
    } else {
      assert before + [] == before;
    }
  }

  /**
   * What ensureValidSelections leaves: every slot validated, then the single
   * and both balance slots, where null, given the best device.
   */
  ghost function EnsuredValid(s: AppState): (r: AppState)
    ensures NoDangling(r)
    ensures r.currentStatus == s.currentStatus && r.currentTab == s.currentTab && r.lastUpdateTime == s.lastUpdateTime
    ensures r.primary == ValidateSlot(s.currentStatus.audioDevices, s.primary)
  {
    var v := ValidateDeviceSelections(s);
    var m := v.currentStatus.audioDevices;
    v.(single := Filled(m, v.single), device1 := Filled(m, v.device1), device2 := Filled(m, v.device2))
  }

  /** On a keyed map validation keeps every live slot, and a non-empty map leaves no working slot null. */
  lemma EnsuredValidKeepsAndFills(s: AppState)
    requires Keyed(s.currentStatus.audioDevices) && NoDangling(s)
    ensures SlotsKept(s, EnsuredValid(s))
    ensures Named(s.currentStatus.audioDevices) ==> var r := EnsuredValid(s); r.single.Some? && r.device1.Some? && r.device2.Some?
  {
    ValidateKeepsLiveSlots(s);
    var m := s.currentStatus.audioDevices;
    if Named(m) {
      FilledFills(m, s.single);
      FilledFills(m, s.device1);
      FilledFills(m, s.device2);
    }
  }

  /** markDevicesAsStale, on the map: every entry flagged stale, nothing else changed. */
  function AllStale(m: map<string, AudioLevel>): (r: map<string, AudioLevel>)
    ensures r.Keys == m.Keys
    ensures forall k :: k in m ==> r[k] == m[k].(stale := true)
  {
    map k | k in m :: m[k].(stale := true)
  }

  /** Once everything is stale, findBestDeviceToSelect falls back to the first entry. */
  lemma AllStaleBestIsFirst(m: map<string, AudioLevel>)
    requires m.Keys != {}
    ensures BestDevice(AllStale(m)) == m[Least(m.Keys)].processName
  {
    var r := AllStale(m);
    assert FreshKeys(r, r.Keys) == {};
  }

  /**
   * updateDeviceFromStatus, on the map: a known session takes the reported
   * volume, mute flag, friendly name and state; an unknown one is added under
   * its process name.  Either way it is stamped `now` and not stale.
   */
  function UpdatedFromStatus(m: map<string, AudioLevel>, data: AudioLevel, now: nat): (r: map<string, AudioLevel>)
    ensures r.Keys == m.Keys + {data.processName}
    ensures data.processName in m ==> r[data.processName] == m[data.processName].(volume := data.volume,
      isMuted := data.isMuted, friendlyName := data.friendlyName, state := data.state, lastUpdate := now, stale := false)
    ensures data.processName !in m ==> r[data.processName] == data.(lastUpdate := now, stale := false)
    ensures forall k :: k in m && k != data.processName ==> r[k] == m[k]
    ensures Keyed(m) ==> Keyed(r)
  {
    var k := data.processName;
    if k in m then
      m[k := m[k].(volume := data.volume, isMuted := data.isMuted, friendlyName := data.friendlyName,
                   state := data.state, lastUpdate := now, stale := false)]
    else m[k := data.(lastUpdate := now, stale := false)]
  }

  /** A reported session is never stale, so it is a candidate for findBestDeviceToSelect afterwards. */
  lemma UpdatedIsFresh(m: map<string, AudioLevel>, data: AudioLevel, now: nat)
    ensures var r := UpdatedFromStatus(m, data, now);
      data.processName in FreshKeys(r, r.Keys) && r.Keys != {} && FreshKeys(r, r.Keys) != {}
  {
  }

  // ---------------------------------------------------------------------------
  // AudioManager
  // ---------------------------------------------------------------------------

  class AudioManager {
    var initialized: bool
    var state: AppState
    /** The subscribed callbacks, in subscription order. */
    var callbacks: seq<nat>
    /** Every callback invocation so far, in call order. */
    var delivered: seq<Delivery>
    /** The status snapshot behind each status update published to the host. */
    var published: seq<AudioStatus>

    /** No selection slot dangles. */
    predicate Valid()
      reads this
    {
      NoDangling(state)
    }

    constructor()
      ensures !initialized && state == CLEARED && callbacks == [] && delivered == [] && published == [] && Valid()
    {
      initialized := false;
      state := CLEARED;
      callbacks := [];
      delivered := [];
      published := [];
    }

    /** init: a second call changes nothing; the first clears the state and the callbacks. */
    method Init() returns (ok: bool)
      modifies this
      ensures ok && initialized
      ensures old(initialized) ==> state == old(state) && callbacks == old(callbacks)
      ensures !old(initialized) ==> state == CLEARED && callbacks == []
      ensures delivered == old(delivered) && published == old(published)
      ensures old(Valid()) ==> Valid()
    {
      if initialized {
        return true;
      }
      state := CLEARED;
      callbacks := [];
      initialized := true;
      ok := true;
    }

    /** deinit: clear the state and the callbacks and drop back to uninitialised. */
    method Deinit()
      modifies this
      ensures !initialized
      ensures old(initialized) ==> state == CLEARED && callbacks == []
      ensures !old(initialized) ==> state == old(state) && callbacks == old(callbacks)
      ensures delivered == old(delivered) && published == old(published)
      ensures old(Valid()) ==> Valid()
    {
      if !initialized {
        return;
      }
      state := CLEARED;
      callbacks := [];
      initialized := false;
    }

    /** subscribeToStateChanges: a null callback is never stored. */
    method SubscribeToStateChanges(callback: Option<nat>)
      modifies this
      ensures callbacks == old(callbacks) + (if callback.Some? then [callback.value] else [])
      ensures initialized == old(initialized) && state == old(state)
      ensures delivered == old(delivered) && published == old(published)
    {
      if callback.Some? {
        callbacks := callbacks + [callback.value];
      }
    }

    /** notifyStateChange: invoke every callback with the event, in subscription order. */
    method Notify(e: StateChangeEvent)
      modifies this
      ensures delivered == old(delivered) + Fanout(callbacks, e)
      ensures initialized == old(initialized) && state == old(state)
      ensures callbacks == old(callbacks) && published == old(published)
    {
      var i := 0;
      while i < |callbacks|
        invariant 0 <= i <= |callbacks|
        invariant delivered == old(delivered) + Fanout(callbacks[..i], e)
        invariant initialized == old(initialized) && state == old(state)
        invariant callbacks == old(callbacks) && published == old(published)
      {
        assert callbacks[..i + 1][..i] == callbacks[..i];
        delivered := delivered + [Delivery(callbacks[i], e)];
        i := i + 1;
      }
      assert callbacks[..|callbacks|] == callbacks;
    }

    /** publishStatusUpdate: when messaging is healthy, send the current status to the host. */
    method PublishStatusUpdate(healthy: bool)
      modifies this
      ensures published == old(published) + (if healthy then [state.currentStatus] else [])
      ensures initialized == old(initialized) && state == old(state)
      ensures callbacks == old(callbacks) && delivered == old(delivered)
    {
      if healthy {
        published := published + [state.currentStatus];
      }
    }

    /** setCurrentTab: store the tab; only a real change stamps the time and notifies tabChanged. */
    method SetCurrentTab(tab: int, now: nat)
      modifies this
      ensures !old(initialized) ==> state == old(state) && delivered == old(delivered)
      ensures old(initialized) ==> state == old(state).(currentTab := tab,
        lastUpdateTime := if old(state).currentTab != tab then now else old(state).lastUpdateTime)
      ensures old(initialized) ==>
        delivered == old(delivered) + (if old(state).currentTab != tab then Fanout(callbacks, TabChangedEvent(tab)) else [])
      ensures initialized == old(initialized) && callbacks == old(callbacks) && published == old(published)
      ensures old(Valid()) ==> Valid()
    {
      if !initialized {
        return;
      }
      var oldTab := state.currentTab;
      state := state.(currentTab := tab);
      if oldTab != tab {
        state := state.(lastUpdateTime := now);
        Notify(TabChangedEvent(tab));
      }
    }

    /**
     * selectDevice(name): when the device exists, write it into the slot of
     * the current tab (no slot for an unknown tab) and notify selectionChanged
     * if the tab's selection was a different one.
     */
    method SelectDevice(deviceName: string)
      requires Valid()
      modifies this
      ensures Valid()
      ensures var m := old(state).currentStatus.audioDevices; var t := old(state).currentTab;
        if old(initialized) && deviceName in m && (t == MASTER || t == SINGLE || t == BALANCE) then
          CurrentSelection(state) == Some(deviceName) &&
          state == (if t == MASTER then old(state).(primary := Some(deviceName))
                    else if t == SINGLE then old(state).(single := Some(deviceName))
                    else old(state).(device1 := Some(deviceName))) &&
          delivered == old(delivered) + (if CurrentSelection(old(state)) != Some(deviceName)
                                         then Fanout(callbacks, SelectionChangedEvent(m[deviceName].processName)) else [])
        else state == old(state) && delivered == old(delivered)
      ensures initialized == old(initialized) && callbacks == old(callbacks) && published == old(published)
    {
      var m := state.currentStatus.audioDevices;
      if deviceName !in m || !initialized {
        return;
      }
      var oldSelection := CurrentSelection(state);
      var t := state.currentTab;
      if t == MASTER {
        state := state.(primary := Some(deviceName));
      } else if t == SINGLE {
        state := state.(single := Some(deviceName));
      } else if t == BALANCE {
        state := state.(device1 := Some(deviceName));
      } else {
        return;
      }
      if oldSelection != Some(deviceName) {
        Notify(SelectionChangedEvent(m[deviceName].processName));
      }
    }

    /**
     * The effect of setDeviceVolume: uninitialised, or no default device for
     * an empty name, leaves everything alone; otherwise the clamped volume is
     * applied, the time stamped, volumeChanged sent and the status published.
     */
    twostate predicate VolumeApplied(deviceName: string, volume: int, now: nat, healthy: bool)
      reads this
    {
      var s := old(state);
      if !old(initialized) || (deviceName == "" && !s.currentStatus.hasDefaultDevice) then
        state == s && delivered == old(delivered) && published == old(published)
      else
        state == s.(currentStatus := VolumeSet(s.currentStatus, deviceName, Clamp(volume), now), lastUpdateTime := now) &&
        delivered == old(delivered) + Fanout(callbacks, VolumeChangedEvent(deviceName, Clamp(volume))) &&
        published == old(published) + (if healthy then [state.currentStatus] else [])
    }

    /** setDeviceVolume: a named session (created when unknown), or the default device for an empty name. */
    method SetDeviceVolume(deviceName: string, volume: int, now: nat, healthy: bool)
      requires Valid()
      modifies this
      ensures Valid()
      ensures VolumeApplied(deviceName, volume, now, healthy)
      ensures initialized == old(initialized) && callbacks == old(callbacks)
      ensures old(initialized) && CurrentSelection(old(state)) == Some(deviceName) && deviceName != "" ==>
        CurrentSelectedVolume(state) == Clamp(volume)
      ensures old(initialized) && deviceName == "" && UsesDefault(old(state)) ==> CurrentSelectedVolume(state) == Clamp(volume)
    {
      if !initialized {
        return;
      }
      var v := Clamp(volume);
      var status := state.currentStatus;
      if deviceName == "" && !status.hasDefaultDevice {
        return;
      }
      VolumeSetKeepsSlots(state, deviceName, v, now);
      state := state.(currentStatus := VolumeSet(status, deviceName, v, now), lastUpdateTime := now);
      Notify(VolumeChangedEvent(deviceName, v));
      PublishStatusUpdate(healthy);
    }

    /**
     * The effect of muteDevice (muted) or unmuteDevice: an unknown session, or
     * no default device for an empty name, returns without notifying.
     */
    twostate predicate MuteApplied(deviceName: string, muted: bool, now: nat, healthy: bool)
      reads this
    {
      var s := old(state);
      if !old(initialized) || (deviceName != "" && deviceName !in s.currentStatus.audioDevices) ||
         (deviceName == "" && !s.currentStatus.hasDefaultDevice) then
        state == s && delivered == old(delivered) && published == old(published)
      else
        state == s.(currentStatus := MuteSet(s.currentStatus, deviceName, muted), lastUpdateTime := now) &&
        delivered == old(delivered) + Fanout(callbacks, MuteChangedEvent(deviceName)) &&
        published == old(published) + (if healthy then [state.currentStatus] else [])
    }

    /** The body muteDevice and unmuteDevice share. */
    method ApplyMute(deviceName: string, muted: bool, now: nat, healthy: bool)
      requires Valid()
      modifies this
      ensures Valid()
      ensures MuteApplied(deviceName, muted, now, healthy)
      ensures initialized == old(initialized) && callbacks == old(callbacks)
      ensures old(initialized) && CurrentSelection(old(state)) == Some(deviceName) && deviceName != "" ==>
        IsCurrentDeviceMuted(state) == muted
    {
      if !initialized {
        return;
      }
      var status := state.currentStatus;
      if deviceName != "" {
        var m := status.audioDevices;
        if deviceName in m {
          state := state.(currentStatus := status.(audioDevices := m[deviceName := m[deviceName].(isMuted := muted)]));
        } else {
          return;
        }
      } else {
        if status.hasDefaultDevice {
          state := state.(currentStatus := status.(defaultDevice := status.defaultDevice.(isMuted := muted)));
        } else {
          return;
        }
      }
      state := state.(lastUpdateTime := now);
      Notify(MuteChangedEvent(deviceName));
      PublishStatusUpdate(healthy);
    }

    /** muteDevice. */
    method MuteDevice(deviceName: string, now: nat, healthy: bool)
      requires Valid()
      modifies this
      ensures Valid()
      ensures MuteApplied(deviceName, true, now, healthy)
      ensures initialized == old(initialized) && callbacks == old(callbacks)
      ensures old(initialized) && CurrentSelection(old(state)) == Some(deviceName) && deviceName != "" ==>
        IsCurrentDeviceMuted(state)
    {
      ApplyMute(deviceName, true, now, healthy);
    }

    /** unmuteDevice. */
    method UnmuteDevice(deviceName: string, now: nat, healthy: bool)
      requires Valid()
      modifies this
      ensures Valid()
      ensures MuteApplied(deviceName, false, now, healthy)
      ensures initialized == old(initialized) && callbacks == old(callbacks)
      ensures old(initialized) && CurrentSelection(old(state)) == Some(deviceName) && deviceName != "" ==>
        !IsCurrentDeviceMuted(state)
    {
      ApplyMute(deviceName, false, now, healthy);
    }

    /** The body muteCurrentDevice and unmuteCurrentDevice share: the current selection, else the balance pair. */
    method ApplyCurrentMute(muted: bool, now: nat, healthy: bool)
      requires Valid()
      modifies this
      ensures Valid()
      ensures var sel := CurrentSelection(old(state));
        if sel.Some? then MuteApplied(SlotName(old(state), sel), muted, now, healthy)
        else state == old(state) && delivered == old(delivered) && published == old(published)
      ensures (old(initialized) && HasValidSelection(old(state)) && Keyed(old(state).currentStatus.audioDevices) &&
        CurrentSelection(old(state)).value != "") ==> IsCurrentDeviceMuted(state) == muted
      ensures initialized == old(initialized) && callbacks == old(callbacks)
    {
      var sel := CurrentSelection(state);
      if sel.Some? {
        ApplyMute(state.currentStatus.audioDevices[sel.value].processName, muted, now, healthy);
      } else if state.currentTab == BALANCE {
        ApplyBalanceMute(muted, now, healthy);
      }
    }

    /** muteCurrentDevice. */
    method MuteCurrentDevice(now: nat, healthy: bool)
      requires Valid()
      modifies this
      ensures Valid()
      ensures var sel := CurrentSelection(old(state));
        if sel.Some? then MuteApplied(SlotName(old(state), sel), true, now, healthy)
        else state == old(state) && delivered == old(delivered) && published == old(published)
      ensures (old(initialized) && HasValidSelection(old(state)) && Keyed(old(state).currentStatus.audioDevices) &&
        CurrentSelection(old(state)).value != "") ==> IsCurrentDeviceMuted(state)
      ensures initialized == old(initialized) && callbacks == old(callbacks)
    {
      ApplyCurrentMute(true, now, healthy);
    }

    /** unmuteCurrentDevice. */
    method UnmuteCurrentDevice(now: nat, healthy: bool)
      requires Valid()
      modifies this
      ensures Valid()
      ensures var sel := CurrentSelection(old(state));
        if sel.Some? then MuteApplied(SlotName(old(state), sel), false, now, healthy)
        else state == old(state) && delivered == old(delivered) && published == old(published)
      ensures (old(initialized) && HasValidSelection(old(state)) && Keyed(old(state).currentStatus.audioDevices) &&
        CurrentSelection(old(state)).value != "") ==> !IsCurrentDeviceMuted(state)
      ensures initialized == old(initialized) && callbacks == old(callbacks)
    {
      ApplyCurrentMute(false, now, healthy);
    }

    /** Both balance slots are set (the guard every balance operation starts with). */
    predicate BalanceReady()
      reads this
    {
      initialized && state.device1.Some? && state.device2.Some?
    }

    /** The body muteBalanceDevices and unmuteBalanceDevices share. */
    method ApplyBalanceMute(muted: bool, now: nat, healthy: bool)
      requires Valid()
      modifies this
      ensures Valid()
      ensures !old(BalanceReady()) ==> state == old(state) && delivered == old(delivered) && published == old(published)
      ensures old(BalanceReady()) ==> var s := old(state); var m := s.currentStatus.audioDevices;
        state == s.(currentStatus := s.currentStatus.(audioDevices :=
          WithMuted(WithMuted(m, s.device1.value, muted), s.device2.value, muted)), lastUpdateTime := now) &&
        delivered == old(delivered) + Fanout(callbacks, MuteChangedEvent("balance")) &&
        published == old(published) + (if healthy then [state.currentStatus] else [])
      ensures old(BalanceReady()) ==> var m := state.currentStatus.audioDevices;
        m[state.device1.value].isMuted == muted && m[state.device2.value].isMuted == muted
      ensures initialized == old(initialized) && callbacks == old(callbacks)
    {
      if !BalanceReady() {
        return;
      }
      var status := state.currentStatus;
      var m1 := WithMuted(status.audioDevices, state.device1.value, muted);
      var m2 := WithMuted(m1, state.device2.value, muted);
      state := state.(currentStatus := status.(audioDevices := m2), lastUpdateTime := now);
      Notify(MuteChangedEvent("balance"));
      PublishStatusUpdate(healthy);
    }

    /** muteBalanceDevices. */
    method MuteBalanceDevices(now: nat, healthy: bool)
      requires Valid()
      modifies this
      ensures Valid()
      ensures !old(BalanceReady()) ==> state == old(state) && delivered == old(delivered) && published == old(published)
      ensures old(BalanceReady()) ==> var s := old(state); var m := s.currentStatus.audioDevices;
        state == s.(currentStatus := s.currentStatus.(audioDevices :=
          WithMuted(WithMuted(m, s.device1.value, true), s.device2.value, true)), lastUpdateTime := now) &&
        delivered == old(delivered) + Fanout(callbacks, MuteChangedEvent("balance")) &&
        published == old(published) + (if healthy then [state.currentStatus] else [])
      ensures initialized == old(initialized) && callbacks == old(callbacks)
    {
      ApplyBalanceMute(true, now, healthy);
    }

    /** unmuteBalanceDevices. */
    method UnmuteBalanceDevices(now: nat, healthy: bool)
      requires Valid()
      modifies this
      ensures Valid()
      ensures !old(BalanceReady()) ==> state == old(state) && delivered == old(delivered) && published == old(published)
      ensures old(BalanceReady()) ==> var s := old(state); var m := s.currentStatus.audioDevices;
        state == s.(currentStatus := s.currentStatus.(audioDevices :=
          WithMuted(WithMuted(m, s.device1.value, false), s.device2.value, false)), lastUpdateTime := now) &&
        delivered == old(delivered) + Fanout(callbacks, MuteChangedEvent("balance")) &&
        published == old(published) + (if healthy then [state.currentStatus] else [])
      ensures initialized == old(initialized) && callbacks == old(callbacks)
    {
      ApplyBalanceMute(false, now, healthy);
    }

    /**
     * setBalanceDeviceVolumes: each balance device gets its clamped volume
     * (the second write wins when both slots hold the same device); the event
     * carries the first volume as given, before clamping.
     */
    method SetBalanceDeviceVolumes(device1Volume: int, device2Volume: int, now: nat, healthy: bool)
      requires Valid()
      modifies this
      ensures Valid()
      ensures !old(BalanceReady()) ==> state == old(state) && delivered == old(delivered) && published == old(published)
      ensures old(BalanceReady()) ==> var s := old(state); var m := s.currentStatus.audioDevices;
        state == s.(currentStatus := s.currentStatus.(audioDevices :=
          WithVolume(WithVolume(m, s.device1.value, Clamp(device1Volume)), s.device2.value, Clamp(device2Volume))),
          lastUpdateTime := now) &&
        delivered == old(delivered) + Fanout(callbacks, VolumeChangedEvent("balance", device1Volume)) &&
        published == old(published) + (if healthy then [state.currentStatus] else [])
      ensures old(BalanceReady()) ==> var m := state.currentStatus.audioDevices;
        m[state.device2.value].volume == Clamp(device2Volume) &&
        (state.device1 != state.device2 ==> m[state.device1.value].volume == Clamp(device1Volume))
      ensures initialized == old(initialized) && callbacks == old(callbacks)
    {
      if !BalanceReady() {
        return;
      }
      var status := state.currentStatus;
      var m1 := WithVolume(status.audioDevices, state.device1.value, Clamp(device1Volume));
      var m2 := WithVolume(m1, state.device2.value, Clamp(device2Volume));
      state := state.(currentStatus := status.(audioDevices := m2), lastUpdateTime := now);
      Notify(VolumeChangedEvent("balance", device1Volume));
      PublishStatusUpdate(healthy);
    }

    /**
     * setVolumeForCurrentDevice: the Master tab sets the default device, the
     * Single tab the selected session, and the Balance tab hands the volume to
     * setBalanceVolume with an even balance; `balanceVolume` is that call.
     */
    method SetVolumeForCurrentDevice(volume: int, now: nat, healthy: bool) returns (balanceVolume: Option<int>)
      requires Valid()
      modifies this
      ensures Valid()
      ensures balanceVolume.Some? <==> old(initialized) && old(state).currentTab == BALANCE
      ensures balanceVolume.Some? ==> balanceVolume.value == volume
      ensures var s := old(state); var sel := CurrentSelection(s);
        if old(initialized) && s.currentTab == MASTER && s.currentStatus.hasDefaultDevice then
          VolumeApplied("", volume, now, healthy)
        else if old(initialized) && s.currentTab == SINGLE && sel.Some? then
          VolumeApplied(SlotName(s, sel), volume, now, healthy)
        else state == s && delivered == old(delivered) && published == old(published)
      ensures old(initialized) && old(state).currentTab == MASTER && old(state).currentStatus.hasDefaultDevice ==>
        state.currentStatus.defaultDevice.volume == Clamp(volume)
      ensures (old(initialized) && old(state).currentTab == SINGLE && HasValidSelection(old(state)) &&
        Keyed(old(state).currentStatus.audioDevices) && CurrentSelection(old(state)).value != "") ==>
        CurrentSelectedVolume(state) == Clamp(volume)
      ensures initialized == old(initialized) && callbacks == old(callbacks)
    {
      balanceVolume := None;
      if !initialized {
        return;
      }
      if state.currentTab == MASTER {
        if state.currentStatus.hasDefaultDevice {
          SetDeviceVolume("", volume, now, healthy);
        }
      } else if state.currentTab == SINGLE {
        var current := CurrentSelection(state);
        if current.None? {
          return;
        }
        SetDeviceVolume(state.currentStatus.audioDevices[current.value].processName, volume, now, healthy);
      } else if state.currentTab == BALANCE {
        balanceVolume := Some(volume);
      }
    }

    /** autoSelectDeviceIfNeeded. */
    method AutoSelectDeviceIfNeeded()
      requires Valid()
      modifies this
      ensures Valid()
      ensures state == AutoSelected(old(state))
      ensures delivered == old(delivered) + AutoSelectNotices(old(state), callbacks)
      ensures initialized == old(initialized) && callbacks == old(callbacks) && published == old(published)
    {
      var m := state.currentStatus.audioDevices;
      if state.currentTab == SINGLE && state.single.None? {
        var best := FindBestDeviceToSelect(m);
        if best != "" {
          state := state.(single := FindDevice(m, best));
          if state.single.Some? {
            Notify(SelectionChangedEvent(best));
          }
        }
      }
      if state.currentTab == BALANCE {
        var needsSelection := false;
        if state.device1.None? {
          var best := FindBestDeviceToSelect(m);
          if best != "" {
            state := state.(device1 := FindDevice(m, best));
            if state.device1.Some? {
              needsSelection := true;
            }
          }
        }
        if state.device2.None? {
          var best := FindBestDeviceToSelect(m);
          if best != "" && state.device1.Some? && best != SlotName(state, state.device1) {
            state := state.(device2 := FindDevice(m, best));
            if state.device2.Some? {
              needsSelection := true;
            }
          } else if best != "" {
            state := state.(device2 := FindDevice(m, best));
            if state.device2.Some? {
              needsSelection := true;
            }
          }
        }
        if needsSelection {
          Notify(SelectionChangedEvent(SlotName(state, state.device1)));
        }
      }
    }

    /**
     * performSmartAutoSelection: auto-select, then retry the working tab's
     * null slots (the Balance retry may copy device1 into device2).  On a
     * keyed map the retry finds nothing left to do.
     */
    method PerformSmartAutoSelection()
      requires Valid()
      modifies this
      ensures Valid()
      ensures !old(initialized) ==> state == old(state) && delivered == old(delivered)
      ensures SlotsKept(old(state), state)
      ensures SelectionsAppended(old(delivered), delivered)
      ensures old(initialized) && Keyed(old(state).currentStatus.audioDevices) ==>
        state == AutoSelected(old(state)) && delivered == old(delivered) + AutoSelectNotices(old(state), callbacks)
      ensures initialized == old(initialized) && callbacks == old(callbacks) && published == old(published)
    {
      if !initialized {
        return;
      }
      AutoSelectDeviceIfNeeded();
      AutoSelectNoticesAppend(old(delivered), old(state), callbacks);
      ghost var afterAuto := delivered;
      var m := state.currentStatus.audioDevices;
      if state.currentTab == SINGLE && state.single.None? && m.Keys != {} {
        var best := FindBestDeviceToSelect(m);
        if best != "" {
          SelectDevice(best);
        }
      }
      if state.currentTab == BALANCE && m.Keys != {} {
        var needsNotification := false;
        if state.device1.None? {
          var best := FindBestDeviceToSelect(m);
          if best != "" {
            state := state.(device1 := FindDevice(m, best));
            if state.device1.Some? {
              needsNotification := true;
            }
          }
        }
        if state.device2.None? {
          var best := FindBestDeviceToSelect(m);
          if best != "" {
            if state.device1.Some? && best != SlotName(state, state.device1) {
              state := state.(device2 := FindDevice(m, best));
              if state.device2.Some? {
                needsNotification := true;
              }
            } else {
              state := state.(device2 := state.device1);
              if state.device2.Some? {
                needsNotification := true;
              }
            }
          }
        }
        if needsNotification {
          FanoutSelections(afterAuto, callbacks, SlotName(state, state.device1));
          Notify(SelectionChangedEvent(SlotName(state, state.device1)));
        }
      }
      SelectionsAppendedTransitive(old(delivered), afterAuto, delivered);
    }

    /** ensureValidSelections. */
    method EnsureValidSelections()
      requires Valid()
      modifies this
      ensures Valid()
      ensures state == EnsuredValid(old(state))
      ensures initialized == old(initialized) && callbacks == old(callbacks)
      ensures delivered == old(delivered) && published == old(published)
    {
      state := ValidateDeviceSelections(state);
      var m := state.currentStatus.audioDevices;
      if state.single.None? {
        var best := FindBestDeviceToSelect(m);
        if best != "" {
          state := state.(single := FindDevice(m, best));
        }
      }
      if state.device1.None? {
        var best := FindBestDeviceToSelect(m);
        if best != "" {
          state := state.(device1 := FindDevice(m, best));
        }
      }
      if state.device2.None? {
        var best := FindBestDeviceToSelect(m);
        if best != "" {
          state := state.(device2 := FindDevice(m, best));
        }
      }
    }

    /** refreshDevicePointers: each slot looked up again by the name it had. */
    method RefreshDevicePointers(primaryName: string, singleName: string, device1Name: string, device2Name: string)
      modifies this
      ensures var m := old(state).currentStatus.audioDevices;
        state == old(state).(primary := Resolve(m, primaryName), single := Resolve(m, singleName),
                             device1 := Resolve(m, device1Name), device2 := Resolve(m, device2Name))
      ensures Valid()
      ensures initialized == old(initialized) && callbacks == old(callbacks)
      ensures delivered == old(delivered) && published == old(published)
    {
      var m := state.currentStatus.audioDevices;
      state := state.(primary := Resolve(m, primaryName), single := Resolve(m, singleName),
                      device1 := Resolve(m, device1Name), device2 := Resolve(m, device2Name));
    }

    /**
     * The selection phase of onAudioStatusReceived: smart auto-selection when
     * the tab has no selection or the device count changed, then
     * ensureValidSelections on a count change.
     */
    method Reselect(significantUpdate: bool)
      requires Valid() && initialized
      modifies this
      ensures Valid()
      ensures state.currentStatus == old(state).currentStatus && state.currentTab == old(state).currentTab
      ensures state.lastUpdateTime == old(state).lastUpdateTime
      ensures Keyed(old(state).currentStatus.audioDevices) ==> SlotsKept(old(state), state)
      ensures (Named(old(state).currentStatus.audioDevices) &&
        (old(state).currentTab == SINGLE || old(state).currentTab == BALANCE)) ==> HasValidSelection(state)
      ensures Named(old(state).currentStatus.audioDevices) && significantUpdate ==>
        state.single.Some? && state.device1.Some? && state.device2.Some?
      ensures SelectionsAppended(old(delivered), delivered)
      ensures initialized == old(initialized) && callbacks == old(callbacks) && published == old(published)
    {
      if !HasValidSelection(state) || significantUpdate {
        if Named(state.currentStatus.audioDevices) {
          AutoSelectFillsTab(state);
        }
        PerformSmartAutoSelection();
      } else {
        assert delivered[..|old(delivered)|] == old(delivered);
      }
      if significantUpdate {
        if Keyed(state.currentStatus.audioDevices) {
          EnsuredValidKeepsAndFills(state);
        }
        EnsureValidSelections();
      }
    }

    /**
     * onAudioStatusReceived: replace the map, re-resolve the slots by name,
     * reselect, stamp the time and notify devicesUpdated.
     */
    method OnAudioStatusReceived(newStatus: AudioStatus, now: nat)
      requires Valid()
      modifies this
      ensures Valid()
      ensures !old(initialized) ==> state == old(state) && delivered == old(delivered)
      ensures old(initialized) ==>
        state.currentStatus == newStatus.(timestamp := now) && state.currentTab == old(state).currentTab &&
        state.lastUpdateTime == now
      ensures old(initialized) && Keyed(newStatus.audioDevices) ==>
        SlotsKept(Refreshed(old(state), newStatus, now).(lastUpdateTime := now), state)
      ensures (old(initialized) && Named(newStatus.audioDevices) &&
        (old(state).currentTab == SINGLE || old(state).currentTab == BALANCE)) ==> HasValidSelection(state)
      ensures (old(initialized) && Named(newStatus.audioDevices) &&
        |newStatus.audioDevices| != |old(state).currentStatus.audioDevices|) ==>
        state.single.Some? && state.device1.Some? && state.device2.Some?
      ensures old(initialized) ==> var n := |delivered| - |callbacks|;
        |old(delivered)| <= n && delivered[n..] == Fanout(callbacks, DevicesUpdatedEvent()) &&
        SelectionsAppended(old(delivered), delivered[..n])
      ensures initialized == old(initialized) && callbacks == old(callbacks) && published == old(published)
    {
      if !initialized {
        return;
      }
      var primaryName := SlotName(state, state.primary);
      var singleName := SlotName(state, state.single);
      var device1Name := SlotName(state, state.device1);
      var device2Name := SlotName(state, state.device2);
      var significantUpdate := |newStatus.audioDevices| != |state.currentStatus.audioDevices|;
      state := state.(currentStatus := newStatus.(timestamp := now));
      RefreshDevicePointers(primaryName, singleName, device1Name, device2Name);
      assert state == Refreshed(old(state), newStatus, now);
      Reselect(significantUpdate);
      state := state.(lastUpdateTime := now);
      ghost var before := delivered;
      Notify(DevicesUpdatedEvent());
      assert delivered[..|before|] == before;
    }

    /** markDevicesAsStale: one pass over the map flagging each entry. */
    method MarkDevicesAsStale()
      modifies this
      ensures state == old(state).(currentStatus := old(state).currentStatus.(audioDevices :=
        AllStale(old(state).currentStatus.audioDevices)))
      ensures old(Valid()) ==> Valid()
      ensures initialized == old(initialized) && callbacks == old(callbacks)
      ensures delivered == old(delivered) && published == old(published)
    {
      var m := state.currentStatus.audioDevices;
      var out := m;
      var rest := m.Keys;
      while rest != {}
        invariant rest <= m.Keys && out.Keys == m.Keys
        invariant forall k :: k in m ==> out[k] == if k in rest then m[k] else m[k].(stale := true)
        decreases |rest|
      {
        var k :| k in rest;
        out := out[k := out[k].(stale := true)];
        rest := rest - {k};
      }
      assert out == AllStale(m);
      state := state.(currentStatus := state.currentStatus.(audioDevices := out));
    }

    /**
     * updateDeviceFromStatus: update or add the session; an added one may
     * fill a null slot of the Single or Balance tab (refreshDevicePointersIfNeeded).
     */
    method UpdateDeviceFromStatus(data: AudioLevel, now: nat)
      requires Valid()
      modifies this
      ensures Valid()
      ensures var s := old(state); var s1 := s.(currentStatus := s.currentStatus.(audioDevices :=
          UpdatedFromStatus(s.currentStatus.audioDevices, data, now)));
        if data.processName in s.currentStatus.audioDevices then state == s1 && delivered == old(delivered)
        else if (s.currentTab == SINGLE && s.single.None?) ||
                (s.currentTab == BALANCE && (s.device1.None? || s.device2.None?)) then
          state == AutoSelected(s1) && delivered == old(delivered) + AutoSelectNotices(s1, callbacks)
        else state == s1 && delivered == old(delivered)
      ensures initialized == old(initialized) && callbacks == old(callbacks) && published == old(published)
    {
      var m := state.currentStatus.audioDevices;
      state := state.(currentStatus := state.currentStatus.(audioDevices := UpdatedFromStatus(m, data, now)));
      if data.processName !in m {
        if state.single.None? && state.currentTab == SINGLE {
          AutoSelectDeviceIfNeeded();
        } else if (state.device1.None? || state.device2.None?) && state.currentTab == BALANCE {
          AutoSelectDeviceIfNeeded();
        }
      }
    }
  }
}
