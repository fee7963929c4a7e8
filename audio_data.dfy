/**
 * The audio data structures: a device or session level, the status snapshot
 * keyed by process name, and the application state with its per-tab
 * selection slots.
 *
 * A selection slot in the firmware is a pointer into the status map.  Here
 * it is the key of the entry it points to (`Some(key)`) or null (`None`),
 * so "the pointer designates this entry" is "the slot holds this key".
 */
module AudioData {
  import opened Wrappers

  // Events::UI::TabState.  Any other value reaches the `default` branches.
  const MASTER := 0
  const SINGLE := 1
  const BALANCE := 2

  /** AudioLevel: one device or session as the host reports it. */
  datatype AudioLevel = AudioLevel(
    processName: string, friendlyName: string, volume: int, isMuted: bool,
    lastUpdate: nat, stale: bool, state: string)

  const NO_LEVEL := AudioLevel("", "", 0, false, 0, false, "")

  /** AudioStatus: the devices by process name, the default device and the snapshot time. */
  datatype AudioStatus = AudioStatus(
    audioDevices: map<string, AudioLevel>, defaultDevice: AudioLevel, timestamp: nat, hasDefaultDevice: bool)

  /** What `AudioStatus::clear` leaves. */
  const EMPTY_STATUS := AudioStatus(map[], NO_LEVEL, 0, false)

  /** Every entry is stored under its own process name. */
  predicate Keyed(m: map<string, AudioLevel>)
  {
    forall k :: k in m ==> m[k].processName == k
  }

  // ---------------------------------------------------------------------------
  // AudioStatus map operations
  // ---------------------------------------------------------------------------

  /** addOrUpdateDevice: store the device under its process name. */
  function AddOrUpdateDevice(status: AudioStatus, device: AudioLevel): (r: AudioStatus)
    ensures device.processName in r.audioDevices && r.audioDevices[device.processName] == device
    ensures r.audioDevices.Keys == status.audioDevices.Keys + {device.processName}
    ensures forall k :: k in status.audioDevices && k != device.processName ==> r.audioDevices[k] == status.audioDevices[k]
    ensures |r.audioDevices| <= |status.audioDevices| + 1
    ensures Keyed(status.audioDevices) ==> Keyed(r.audioDevices)
    ensures r.defaultDevice == status.defaultDevice && r.timestamp == status.timestamp
    ensures r.hasDefaultDevice == status.hasDefaultDevice
  {
    status.(audioDevices := status.audioDevices[device.processName := device])
  }

  /** removeDevice: erase the entry of that name, if any. */
  function RemoveDevice(status: AudioStatus, processName: string): (r: AudioStatus)
    ensures r.audioDevices.Keys == status.audioDevices.Keys - {processName}
    ensures forall k :: k in r.audioDevices ==> r.audioDevices[k] == status.audioDevices[k]
    ensures Keyed(status.audioDevices) ==> Keyed(r.audioDevices)
    ensures r.defaultDevice == status.defaultDevice && r.timestamp == status.timestamp
    ensures r.hasDefaultDevice == status.hasDefaultDevice
  {
    status.(audioDevices := status.audioDevices - {processName})
  }

  /** Removing what was just added gives back the map when the name was new. */
  lemma AddThenRemove(status: AudioStatus, device: AudioLevel)
    requires device.processName !in status.audioDevices
    ensures RemoveDevice(AddOrUpdateDevice(status, device), device.processName) == status
  {
    var r := RemoveDevice(AddOrUpdateDevice(status, device), device.processName);
    assert r.audioDevices == status.audioDevices;
  }

  /** The map setAudioLevels builds: each level under its name, a later one replacing an earlier one. */
  function LevelsMap(levels: seq<AudioLevel>): map<string, AudioLevel>
  {
    if levels == [] then map[]
    else
      var n := |levels| - 1;
      LevelsMap(levels[..n])[levels[n].processName := levels[n]]
  }

  /** No later level in the list carries the same name as level `i`. */
  predicate LastWithName(levels: seq<AudioLevel>, i: nat)
    requires i < |levels|
  {
    forall j :: i < j < |levels| ==> levels[j].processName != levels[i].processName
  }

  /** The keys are exactly the names, at most one per level, and each entry is keyed. */
  lemma LevelsMapKeys(levels: seq<AudioLevel>)
    ensures LevelsMap(levels).Keys == set l | l in levels :: l.processName
    ensures |LevelsMap(levels)| <= |levels|
    ensures Keyed(LevelsMap(levels))
  {
    LevelsMapNames(levels);
    LevelsMapSize(levels);
    LevelsMapKeyed(levels);
  }

  lemma {:induction false} LevelsMapNames(levels: seq<AudioLevel>)
    ensures LevelsMap(levels).Keys == set l | l in levels :: l.processName
  {
    if levels != [] {
      var n := |levels| - 1;
      var init := levels[..n];
      LevelsMapNames(init);
      assert levels == init + [levels[n]];
      assert (set l | l in levels :: l.processName) == (set l | l in init :: l.processName) + {levels[n].processName};
    }
  }

  lemma {:induction false} LevelsMapSize(levels: seq<AudioLevel>)
    ensures |LevelsMap(levels)| <= |levels|
  {
    if levels != [] {
      LevelsMapSize(levels[..|levels| - 1]);
    }
  }

  lemma {:induction false} LevelsMapKeyed(levels: seq<AudioLevel>)
    ensures Keyed(LevelsMap(levels))
  {
    if levels != [] {
      LevelsMapKeyed(levels[..|levels| - 1]);
    }
  }

  /** The last level of each name is the one stored. */
  lemma {:induction false} LevelsMapLastWins(levels: seq<AudioLevel>, i: nat)
    requires i < |levels| && LastWithName(levels, i)
    ensures levels[i].processName in LevelsMap(levels)
    ensures LevelsMap(levels)[levels[i].processName] == levels[i]
  {
    var n := |levels| - 1;
    if i < n {
      var init := levels[..n];
      assert levels[n].processName != levels[i].processName;
      assert init[i] == levels[i];
      assert LastWithName(init, i) by {
        forall j | i < j < |init| ensures init[j].processName != init[i].processName {
          assert init[j] == levels[j];
        }
      }
      LevelsMapLastWins(init, i);
    }
  }

  /** setAudioLevels: clear the map, then store each level in turn. */
  method SetAudioLevels(status: AudioStatus, levels: seq<AudioLevel>) returns (r: AudioStatus)
    ensures r == status.(audioDevices := LevelsMap(levels))
  {
    var devices: map<string, AudioLevel> := map[];
    var i := 0;
    while i < |levels|
      invariant 0 <= i <= |levels|
      invariant devices == LevelsMap(levels[..i])
    {
      assert levels[..i + 1][..i] == levels[..i];
      devices := devices[levels[i].processName := levels[i]];
      i := i + 1;
    }
    assert levels[..|levels|] == levels;
    r := status.(audioDevices := devices);
  }

  // ---------------------------------------------------------------------------
  // AudioAppState
  // ---------------------------------------------------------------------------

  type Slot = Option<string>

  /**
   * AudioAppState with the four selection slots AudioManager uses: the
   * Master tab's primary device, the Single tab's device and the two
   * Balance devices.
   */
  datatype AppState = AppState(
    currentStatus: AudioStatus, currentTab: int,
    primary: Slot, single: Slot, device1: Slot, device2: Slot,
    lastUpdateTime: nat)

  /** What `AudioAppState::clear` leaves. */
  const CLEARED := AppState(EMPTY_STATUS, MASTER, None, None, None, None, 0)

  /** A slot is null or designates a live entry of the current map. */
  predicate Live(s: AppState, slot: Slot)
  {
    slot.Some? ==> slot.value in s.currentStatus.audioDevices
  }

  /** No selection slot dangles. */
  predicate NoDangling(s: AppState)
  {
    Live(s, s.primary) && Live(s, s.single) && Live(s, s.device1) && Live(s, s.device2)
  }

  /** getCurrentSelectedDevice: the slot the current tab reads, the primary one for an unknown tab. */
  function CurrentSelection(s: AppState): (r: Slot)
    ensures s.currentTab == SINGLE ==> r == s.single
    ensures s.currentTab == BALANCE ==> r == s.device1
    ensures s.currentTab != SINGLE && s.currentTab != BALANCE ==> r == s.primary
    ensures NoDangling(s) ==> Live(s, r)
  {
    if s.currentTab == SINGLE then s.single
    else if s.currentTab == BALANCE then s.device1
    else s.primary
  }

  /** hasValidSelection. */
  predicate HasValidSelection(s: AppState)
  {
    CurrentSelection(s).Some?
  }

  /** The level a selection designates, if it is live. */
  function Selected(s: AppState): Option<AudioLevel>
  {
    var sel := CurrentSelection(s);
    if sel.Some? && sel.value in s.currentStatus.audioDevices then Some(s.currentStatus.audioDevices[sel.value])
    else None
  }

  /** No selection, but the Master tab and a default device: the default device stands in. */
  predicate UsesDefault(s: AppState)
  {
    Selected(s).None? && s.currentTab == MASTER && s.currentStatus.hasDefaultDevice
  }

  /** getCurrentSelectedVolume: the selection's volume, else the default device's in Master, else 0. */
  function CurrentSelectedVolume(s: AppState): (r: int)
    ensures Selected(s).Some? ==> r == Selected(s).value.volume
    ensures UsesDefault(s) ==> r == s.currentStatus.defaultDevice.volume
    ensures Selected(s).None? && !UsesDefault(s) ==> r == 0
  {
    var d := Selected(s);
    if d.Some? then d.value.volume
    else if s.currentTab == MASTER && s.currentStatus.hasDefaultDevice then s.currentStatus.defaultDevice.volume
    else 0
  }

  /** isCurrentDeviceMuted: as the volume, with false in place of 0. */
  function IsCurrentDeviceMuted(s: AppState): (r: bool)
    ensures Selected(s).Some? ==> r == Selected(s).value.isMuted
    ensures UsesDefault(s) ==> r == s.currentStatus.defaultDevice.isMuted
    ensures Selected(s).None? && !UsesDefault(s) ==> !r
  {
    var d := Selected(s);
    if d.Some? then d.value.isMuted
    else if s.currentTab == MASTER && s.currentStatus.hasDefaultDevice then s.currentStatus.defaultDevice.isMuted
    else false
  }

  /** getCurrentSelectedDeviceName: the process name, else the default device's friendly name (or "Default Device") in Master, else "". */
  function CurrentSelectedDeviceName(s: AppState): (r: string)
    ensures Selected(s).Some? ==> r == Selected(s).value.processName
    ensures UsesDefault(s) && s.currentStatus.defaultDevice.friendlyName == [] ==> r == "Default Device"
    ensures UsesDefault(s) && s.currentStatus.defaultDevice.friendlyName != [] ==>
      r == s.currentStatus.defaultDevice.friendlyName
    ensures Selected(s).None? && !UsesDefault(s) ==> r == ""
  {
    var d := Selected(s);
    if d.Some? then d.value.processName
    else if s.currentTab == MASTER && s.currentStatus.hasDefaultDevice then
      if s.currentStatus.defaultDevice.friendlyName == [] then "Default Device" else s.currentStatus.defaultDevice.friendlyName
    else ""
  }

  /** The name a query reports is the selection's only when a live device is selected. */
  lemma SelectedQueriesAgree(s: AppState)
    requires NoDangling(s) && HasValidSelection(s)
    ensures var d := s.currentStatus.audioDevices[CurrentSelection(s).value];
      CurrentSelectedVolume(s) == d.volume && IsCurrentDeviceMuted(s) == d.isMuted &&
      CurrentSelectedDeviceName(s) == d.processName
  {
  }

  /**
   * validateDevicePointer: keep a slot only when looking its entry up by the
   * entry's own process name finds that same entry.
   */
  function ValidateSlot(m: map<string, AudioLevel>, slot: Slot): (r: Slot)
    ensures r == slot || r.None?
    ensures r.Some? <==> slot.Some? && slot.value in m && m[slot.value].processName == slot.value
  {
    if slot.Some? && slot.value in m && m[slot.value].processName == slot.value then slot else None
  }

  /** validateDeviceSelections, applied to every slot. */
  function ValidateDeviceSelections(s: AppState): (r: AppState)
    ensures NoDangling(r)
    ensures r.currentStatus == s.currentStatus && r.currentTab == s.currentTab && r.lastUpdateTime == s.lastUpdateTime
  {
    var m := s.currentStatus.audioDevices;
    s.(primary := ValidateSlot(m, s.primary), single := ValidateSlot(m, s.single),
       device1 := ValidateSlot(m, s.device1), device2 := ValidateSlot(m, s.device2))
  }

  /** On a keyed map with no dangling slot, validation changes nothing; it is always idempotent. */
  lemma ValidateKeepsLiveSlots(s: AppState)
    ensures Keyed(s.currentStatus.audioDevices) && NoDangling(s) ==> ValidateDeviceSelections(s) == s
    ensures ValidateDeviceSelections(ValidateDeviceSelections(s)) == ValidateDeviceSelections(s)
  {
  }

  /** findDevice: the slot designating the entry of that name, null when there is none. */
  function FindDevice(m: map<string, AudioLevel>, processName: string): (r: Slot)
    ensures r.Some? <==> processName in m
    ensures r.Some? ==> r.value == processName
  {
    if processName in m then Some(processName) else None
  }

  /** The process name behind a slot, "" for a null one. */
  function SlotName(s: AppState, slot: Slot): string
  {
    if slot.Some? && slot.value in s.currentStatus.audioDevices then s.currentStatus.audioDevices[slot.value].processName
    else ""
  }

  // ---------------------------------------------------------------------------
  // AudioStateChangeEvent
  // ---------------------------------------------------------------------------

  datatype EventKind = DevicesUpdated | SelectionChanged | VolumeChanged | TabChanged | MuteChanged

  datatype StateChangeEvent = StateChangeEvent(kind: EventKind, deviceName: string, volume: int, tab: int)

  function DevicesUpdatedEvent(): StateChangeEvent { StateChangeEvent(DevicesUpdated, "", 0, MASTER) }

  function SelectionChangedEvent(device: string): StateChangeEvent { StateChangeEvent(SelectionChanged, device, 0, MASTER) }

  function VolumeChangedEvent(device: string, volume: int): StateChangeEvent
  {
    StateChangeEvent(VolumeChanged, device, volume, MASTER)
  }

  function TabChangedEvent(tab: int): StateChangeEvent { StateChangeEvent(TabChanged, "", 0, tab) }

  function MuteChangedEvent(device: string): StateChangeEvent { StateChangeEvent(MuteChanged, device, 0, MASTER) }
}
