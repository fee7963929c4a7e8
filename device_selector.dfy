/**
 * The device selections behind the mixer's dropdowns: one selection shared
 * by the master and single tabs, two for the balance tab, kept apart so the
 * same device is never chosen twice for balance.  A dropdown is modelled by
 * its options text (one option per line, as LVGL keeps it) and the index of
 * its selected option; drawing is not modelled.
 */
module DeviceSelectors {
  import opened Wrappers
  import opened Text
  import opened AudioData
  import opened Messages

  /** The mark a stale device carries in front of its name. */
  const STALE_MARK: string := "(!) "
  /** What starts the decoration after a name, as in "Chrome (2)". */
  const DECORATION: string := " ("
  /** `char buf[128]` in getDropdownSelection. */
  const SELECTION_BUFFER_SIZE: nat := 128

  /**
   * `extractDeviceNameFromDropdownText`: without a leading stale mark, and
   * cut before the first " (" when it does not start the text.
   */
  function ExtractDeviceName(dropdownText: string): string
  {
    var s := if StartsWith(dropdownText, STALE_MARK) then dropdownText[|STALE_MARK|..] else dropdownText;
    var idx := IndexOf(s, DECORATION);
    if idx > 0 then s[..idx] else s
  }

  /**
   * The name is the piece of the text after the stale mark, if any, that
   * runs to the end or to a " ("; it holds no " (" past its first character.
   */
  lemma ExtractDeviceNameShape(dropdownText: string)
    ensures var r := ExtractDeviceName(dropdownText);
      var at := if StartsWith(dropdownText, STALE_MARK) then |STALE_MARK| else 0;
      OccursAt(dropdownText, r, at) &&
      (at + |r| == |dropdownText| || OccursAt(dropdownText, DECORATION, at + |r|)) &&
      IndexOf(r, DECORATION) <= 0
  {
    var at := if StartsWith(dropdownText, STALE_MARK) then |STALE_MARK| else 0;
    var s := dropdownText[at..];
    assert s == if StartsWith(dropdownText, STALE_MARK) then dropdownText[|STALE_MARK|..] else dropdownText;
    var idx := IndexOf(s, DECORATION);
    if idx > 0 {
      var r := s[..idx];
      forall j | 0 <= j <= |r| ensures !OccursAt(r, DECORATION, j) {
        assert j < idx ==> !OccursAt(s, DECORATION, j);
        assert j + |DECORATION| <= idx ==> r[j..j + |DECORATION|] == s[j..j + |DECORATION|];
      }
      assert !Contains(r, DECORATION);
      OccursAfter(dropdownText, at, s[..idx], 0);
      OccursAfter(dropdownText, at, DECORATION, idx);
    } else {
      OccursAfter(dropdownText, at, s, 0);
    }
  }

  /** An occurrence in a suffix of `t` is an occurrence in `t`. */
  lemma OccursAfter(t: string, at: nat, sub: string, i: nat)
    requires at <= |t| && OccursAt(t[at..], sub, i)
    ensures OccursAt(t, sub, at + i)
  {
    assert t[at + i..at + i + |sub|] == t[at..][i..i + |sub|];
  }

  /** "(!) Chrome (2)" names the device "Chrome". */
  lemma ExtractStaleDecorated(text: string)
    requires text == "(!) Chrome (2)"
    ensures ExtractDeviceName(text) == "Chrome"
  {
    var s := text[4..];
    assert StartsWith(text, STALE_MARK);
    assert s == "Chrome (2)";
    assert OccursAt(s, DECORATION, 6);
    forall j | 0 <= j < 6 ensures !OccursAt(s, DECORATION, j) {
      assert s[j..j + 2][1] == s[j + 1] != '(';
    }
    assert IndexOf(s, DECORATION) == 6;
  }

  /** A text starting with " (" is kept whole. */
  lemma ExtractKeepsLeadingDecoration(text: string)
    requires text == " (x)"
    ensures ExtractDeviceName(text) == text
  {
    assert text[0] == ' ';
    assert !StartsWith(text, STALE_MARK);
    assert OccursAt(text, DECORATION, 0);
    assert IndexOf(text, DECORATION) == 0;
  }

  /** The option text `updateDropdownOptions` shows for a level. */
  function DisplayName(level: AudioLevel): string
  {
    if level.stale then STALE_MARK + level.processName else level.processName
  }

  /** A name that reads back from its option: no " (" inside it, no stale mark of its own unless stale. */
  predicate Displayable(level: AudioLevel)
  {
    IndexOf(level.processName, DECORATION) <= 0 &&
    (!level.stale ==> !StartsWith(level.processName, STALE_MARK))
  }

  /** The device name read from an option is the device shown there. */
  lemma ExtractDisplayName(level: AudioLevel)
    requires Displayable(level)
    ensures ExtractDeviceName(DisplayName(level)) == level.processName
  {
    if level.stale {
      var d := DisplayName(level);
      assert StartsWith(d, STALE_MARK) && d[|STALE_MARK|..] == level.processName;
    }
  }

  // ---------------------------------------------------------------------------
  // Options text
  // ---------------------------------------------------------------------------

  /**
   * The options of `t` from index `from`, as the `setDropdownSelection` loop
   * cuts them: up to the next '\n' or the end; nothing once `from` reaches
   * the end.
   */
  function LinesFrom(t: string, from: nat): seq<string>
    decreases |t| - from
  {
    if from >= |t| then [] else [t[from..LineEnd(t, from)]] + LinesFrom(t, LineEnd(t, from) + 1)
  }

  /** Where the option starting at `from` ends: the next '\n', or the end of `t`. */
  function LineEnd(t: string, from: nat): (r: nat)
    requires from <= |t|
    ensures from <= r <= |t|
    decreases |t| - from
  {
    if from == |t| || t[from] == '\n' then from else LineEnd(t, from + 1)
  }

  /** The line end is the first '\n' at or after `from`, or the end. */
  lemma {:induction false} LineEndAt(t: string, from: nat, k: nat)
    requires from <= k <= |t|
    requires forall i :: from <= i < k ==> t[i] != '\n'
    requires k == |t| || t[k] == '\n'
    ensures LineEnd(t, from) == k
    decreases k - from
  {
    if from < k {
      LineEndAt(t, from + 1, k);
    }
  }

  /** `indexOf('\n', from)` finds the line end, or -1 when it is the end of the text. */
  lemma LineEndIsIndexOf(t: string, from: nat)
    requires from <= |t|
    ensures LineEnd(t, from) == var e := IndexOfFrom(t, "\n", from); if e == -1 then |t| else e
  {
    var e := IndexOfFrom(t, "\n", from);
    var k := if e == -1 then |t| else e;
    forall i | from <= i < k ensures t[i] != '\n' {
      CharAt(t, '\n', i);
    }
    if e != -1 {
      CharAt(t, '\n', e);
    }
    LineEndAt(t, from, k);
  }

  /** Line ends past a prefix are the line ends of the rest, shifted. */
  lemma {:induction false} LineEndShift(p: string, q: string, j: nat)
    requires j <= |q|
    ensures LineEnd(p + q, |p| + j) == |p| + LineEnd(q, j)
    decreases |q| - j
  {
    if j < |q| && q[j] != '\n' {
      assert (p + q)[|p| + j] == q[j];
      LineEndShift(p, q, j + 1);
    }
  }

  function Lines(t: string): seq<string>
  {
    LinesFrom(t, 0)
  }

  /** The device names the options read as. */
  function Extracted(lines: seq<string>): (r: seq<string>)
    ensures |r| == |lines|
    ensures forall i :: 0 <= i < |lines| ==> r[i] == ExtractDeviceName(lines[i])
  {
    seq(|lines|, i requires 0 <= i < |lines| => ExtractDeviceName(lines[i]))
  }

  /** The first index of `x` in `xs`. */
  function FirstIndex(xs: seq<string>, x: string): (r: Option<nat>)
    ensures r.None? <==> x !in xs
    ensures r.Some? ==> r.value < |xs| && xs[r.value] == x && forall j :: 0 <= j < r.value ==> xs[j] != x
  {
    if xs == [] then None
    else if xs[0] == x then Some(0)
    else match FirstIndex(xs[1..], x)
      case None => None
      case Some(i) => Some(i + 1)
  }

  /** The option `setDropdownSelection` picks: the first whose device name is `deviceName`. */
  function FirstMatch(options: string, deviceName: string): Option<nat>
  {
    FirstIndex(Extracted(Lines(options)), deviceName)
  }

  /** Found at `i` with no earlier match: the first index is `i`. */
  lemma FirstIndexAt(xs: seq<string>, x: string, i: nat)
    requires i < |xs| && xs[i] == x && forall j :: 0 <= j < i ==> xs[j] != x
    ensures FirstIndex(xs, x) == Some(i)
  {
    var r := FirstIndex(xs, x);
    assert r.Some?;
    assert !(r.value < i) && !(i < r.value);
  }

  /**
   * The option loop of `setDropdownSelection`: walks the options text line
   * by line and returns the index of the first option naming the device.
   */
  method FindOption(options: string, deviceName: string) returns (index: Option<nat>)
    ensures index == FirstMatch(options, deviceName)
  {
    ghost var done: seq<string> := [];
    var optionIndex := 0;
    var startPos := 0;
    while startPos < |options|
      invariant Scanning(options, deviceName, done, startPos) && optionIndex == |done|
      decreases |options| - startPos
    {
      var endPos := IndexOfFrom(options, "\n", startPos);
      if endPos == -1 {
        endPos := |options|;
      }
      LineEndIsIndexOf(options, startPos);
      var option := options[startPos..endPos];
      if ExtractDeviceName(option) == deviceName {
        FoundOption(options, deviceName, done, startPos);
        return Some(optionIndex);
      }
      ScanStep(options, deviceName, done, startPos);
      done := done + [option];
      startPos := endPos + 1;
      optionIndex := optionIndex + 1;
    }
    NotFound(options, deviceName, done, startPos);
    return None;
  }

  /** The loop's state: the options before `startPos` are `done`, and none of them names the device. */
  ghost predicate Scanning(options: string, deviceName: string, done: seq<string>, startPos: nat)
  {
    startPos <= |options| + 1 &&
    Lines(options) == done + LinesFrom(options, startPos) &&
    Unnamed(done, deviceName)
  }

  /** No option of `done` names the device. */
  ghost predicate Unnamed(done: seq<string>, deviceName: string)
  {
    forall j :: 0 <= j < |done| ==> ExtractDeviceName(done[j]) != deviceName
  }

  lemma FoundOption(options: string, deviceName: string, done: seq<string>, startPos: nat)
    requires Scanning(options, deviceName, done, startPos) && startPos < |options|
    requires ExtractDeviceName(options[startPos..LineEnd(options, startPos)]) == deviceName
    ensures FirstMatch(options, deviceName) == Some(|done|)
  {
    var xs := Extracted(Lines(options));
    assert Lines(options)[|done|] == options[startPos..LineEnd(options, startPos)];
    forall j | 0 <= j < |done| ensures xs[j] != deviceName {
      assert Lines(options)[j] == done[j];
    }
    FirstIndexAt(xs, deviceName, |done|);
  }

  lemma ScanStep(options: string, deviceName: string, done: seq<string>, startPos: nat)
    requires Scanning(options, deviceName, done, startPos) && startPos < |options|
    requires ExtractDeviceName(options[startPos..LineEnd(options, startPos)]) != deviceName
    ensures Scanning(options, deviceName, done + [options[startPos..LineEnd(options, startPos)]],
      LineEnd(options, startPos) + 1)
  {
    LinesStep(options, Lines(options), done, startPos);
    NoneNamed(done, options[startPos..LineEnd(options, startPos)], deviceName);
  }

  /** One more option read: it joins the options already read. */
  lemma LinesStep(options: string, all: seq<string>, done: seq<string>, startPos: nat)
    requires startPos < |options| && all == done + LinesFrom(options, startPos)
    ensures all == done + [options[startPos..LineEnd(options, startPos)]] +
      LinesFrom(options, LineEnd(options, startPos) + 1)
  {
    var later := LinesFrom(options, startPos);
    LinesFromUnfold(options, startPos);
    assert done + later == done + [later[0]] + later[1..];
  }

  lemma LinesFromUnfold(t: string, from: nat)
    requires from < |t|
    ensures LinesFrom(t, from) == [t[from..LineEnd(t, from)]] + LinesFrom(t, LineEnd(t, from) + 1)
  {
  }

  lemma NoneNamed(done: seq<string>, line: string, deviceName: string)
    requires Unnamed(done, deviceName) && ExtractDeviceName(line) != deviceName
    ensures Unnamed(done + [line], deviceName)
  {
  }

  lemma NotFound(options: string, deviceName: string, done: seq<string>, startPos: nat)
    requires Scanning(options, deviceName, done, startPos) && startPos >= |options|
    ensures FirstMatch(options, deviceName) == None
  {
    assert Lines(options) == done;
    assert deviceName !in Extracted(done);
  }

  /** Options that can be told apart: each non-empty and on one line. */
  predicate OneLineEach(es: seq<string>)
  {
    forall k :: 0 <= k < |es| ==> es[k] != "" && '\n' !in es[k]
  }

  /** Reading past a prefix reads the rest. */
  lemma {:induction false} LinesFromShift(p: string, q: string, j: nat)
    ensures LinesFrom(p + q, |p| + j) == LinesFrom(q, j)
    decreases |q| - j
  {
    if j < |q| {
      LineEndShift(p, q, j);
      var end := LineEnd(q, j);
      var line := q[j..end];
      var tail := LinesFrom(q, end + 1);
      LinesFromShift(p, q, end + 1);
      SliceShift(p, q, j, end);
      LinesFromCons(p + q, |p| + j, line, tail);
      LinesFromCons(q, j, line, tail);
      SameList(LinesFrom(p + q, |p| + j), LinesFrom(q, j), [line] + tail);
    } else {
      assert LinesFrom(q, j) == [];
      assert LinesFrom(p + q, |p| + j) == [];
    }
  }

  lemma SameList<T>(a: seq<T>, b: seq<T>, c: seq<T>)
    requires a == c && b == c
    ensures a == b
  {
  }

  lemma SliceShift(p: string, q: string, i: nat, j: nat)
    requires i <= j <= |q|
    ensures (p + q)[|p| + i..|p| + j] == q[i..j]
  {
  }

  lemma LinesFromCons(t: string, from: nat, line: string, tail: seq<string>)
    requires from < |t| && t[from..LineEnd(t, from)] == line && LinesFrom(t, LineEnd(t, from) + 1) == tail
    ensures LinesFrom(t, from) == [line] + tail
  {
  }

  /** Options joined by newlines read back one by one. */
  lemma {:induction false} LinesOfJoin(es: seq<string>)
    requires OneLineEach(es)
    ensures Lines(JoinWith(es, '\n')) == es
    decreases |es|
  {
    if |es| == 1 {
      var e := es[0];
      assert JoinWith(es, '\n') == e;
      LineEndAt(e, 0, |e|);
      assert e[0..|e|] == e;
      assert LinesFrom(e, |e| + 1) == [];
    } else if |es| >= 2 {
      var e := es[0];
      var rest := JoinWith(es[1..], '\n');
      var t := e + "\n" + rest;
      assert forall i :: 0 <= i < |e| ==> t[i] == e[i];
      LineEndAt(t, 0, |e|);
      assert t[0..|e|] == e;
      assert t == (e + "\n") + rest;
      LinesFromShift(e + "\n", rest, 0);
      LinesOfJoin(es[1..]);
    }
  }

  /** The options text `updateDropdownOptions` gives a dropdown. */
  function OptionsText(levels: seq<AudioLevel>): string
  {
    JoinWith(seq(|levels|, i requires 0 <= i < |levels| => DisplayName(levels[i])), '\n')
  }

  function ProcessNames(levels: seq<AudioLevel>): (r: seq<string>)
    ensures |r| == |levels| && forall i :: 0 <= i < |levels| ==> r[i] == levels[i].processName
  {
    seq(|levels|, i requires 0 <= i < |levels| => levels[i].processName)
  }

  /** Levels whose options read back to their names. */
  predicate ShownFaithfully(levels: seq<AudioLevel>)
  {
    forall i :: 0 <= i < |levels| ==>
      levels[i].processName != "" && '\n' !in levels[i].processName && Displayable(levels[i])
  }

  /**
   * After a refresh, selecting a device picks the row of the first level
   * with that process name, and nothing when no level has it.
   */
  lemma SelectAfterRefresh(levels: seq<AudioLevel>, deviceName: string)
    requires ShownFaithfully(levels)
    ensures FirstMatch(OptionsText(levels), deviceName) == FirstIndex(ProcessNames(levels), deviceName)
  {
    var shown := seq(|levels|, i requires 0 <= i < |levels| => DisplayName(levels[i]));
    forall k | 0 <= k < |shown| ensures shown[k] != "" && '\n' !in shown[k] {
      if levels[k].stale {
        assert shown[k] == STALE_MARK + levels[k].processName;
      }
    }
    LinesOfJoin(shown);
    forall i | 0 <= i < |levels| ensures ExtractDeviceName(shown[i]) == levels[i].processName {
      ExtractDisplayName(levels[i]);
    }
    assert Extracted(Lines(OptionsText(levels))) == ProcessNames(levels);
  }

  // ---------------------------------------------------------------------------
  // Dropdowns
  // ---------------------------------------------------------------------------

  datatype Dropdown = Dropdown(options: string, selected: nat)

  /** `setDropdownSelection` on a dropdown value: selects the first matching option, if any. */
  function SelectedIn(dropdown: Option<Dropdown>, deviceName: string): (r: Option<Dropdown>)
    ensures r.None? <==> dropdown.None?
    ensures r.Some? ==> r.value.options == dropdown.value.options
  {
    match dropdown
    case None => None
    case Some(d) =>
      match FirstMatch(d.options, deviceName)
      case None => dropdown
      case Some(i) => Some(d.(selected := i))
  }

  method SetDropdownSelection(dropdown: Option<Dropdown>, deviceName: string) returns (r: Option<Dropdown>)
    ensures r == SelectedIn(dropdown, deviceName)
  {
    if dropdown.None? {
      return dropdown;
    }
    var index := FindOption(dropdown.value.options, deviceName);
    if index.Some? {
      r := Some(dropdown.value.(selected := index.value));
    } else {
      r := dropdown;
    }
  }

  /**
   * `getDropdownSelection`: the device name of the selected option, read
   * through a 128-character buffer; "" without a dropdown.
   */
  function DropdownSelection(dropdown: Option<Dropdown>): (r: string)
    ensures dropdown.None? ==> r == ""
  {
    match dropdown
    case None => ""
    case Some(d) =>
      var lines := Lines(d.options);
      var text := if d.selected < |lines| then lines[d.selected] else "";
      ExtractDeviceName(CopyBounded(text, SELECTION_BUFFER_SIZE))
  }

  /**
   * Selecting a device and reading the selection back gives that device,
   * when its option is short and free of NUL.
   */
  lemma SelectThenRead(d: Dropdown, deviceName: string)
    requires FirstMatch(d.options, deviceName).Some?
    requires var i := FirstMatch(d.options, deviceName).value; Fits(Lines(d.options)[i], SELECTION_BUFFER_SIZE)
    ensures DropdownSelection(SelectedIn(Some(d), deviceName)) == deviceName
  {
  }

  /** The dropdown after `updateDropdownOptions`: the levels' names, the first option selected. */
  function Refreshed(dropdown: Option<Dropdown>, levels: seq<AudioLevel>): (r: Option<Dropdown>)
    ensures r.None? <==> dropdown.None?
  {
    if dropdown.None? then None else Some(Dropdown(OptionsText(levels), 0))
  }

  /** The second balance selection once `ensureBalanceExclusivity` has run. */
  function ExclusiveSecond(first: string, second: string): (r: string)
    ensures !(first == r && r != "")
    ensures r == second || (r == "" && first == second)
  {
    if first == second && first != "" then "" else second
  }

  /** The second balance dropdown once `ensureBalanceExclusivity` has run. */
  function ExclusiveSecondDropdown(first: string, second: string, dropdown: Option<Dropdown>): Option<Dropdown>
  {
    if first == second && first != "" && dropdown.Some? then Some(dropdown.value.(selected := 0)) else dropdown
  }

  // ---------------------------------------------------------------------------
  // DeviceSelectorManager
  // ---------------------------------------------------------------------------

  class DeviceSelectorManager {
    var mainDropdown: Option<Dropdown>
    var balanceDropdown1: Option<Dropdown>
    var balanceDropdown2: Option<Dropdown>
    var mainSelection: string
    var balanceSelection1: string
    var balanceSelection2: string

    /** The two balance selections never name the same device. */
    predicate BalanceExclusive()
      reads this
    {
      !(balanceSelection1 == balanceSelection2 && balanceSelection1 != "")
    }

    constructor()
      ensures mainDropdown.None? && balanceDropdown1.None? && balanceDropdown2.None?
      ensures mainSelection == "" && balanceSelection1 == "" && balanceSelection2 == ""
      ensures BalanceExclusive()
    {
      mainDropdown := None;
      balanceDropdown1 := None;
      balanceDropdown2 := None;
      mainSelection := "";
      balanceSelection1 := "";
      balanceSelection2 := "";
    }

    method Initialize(main: Option<Dropdown>, bal1: Option<Dropdown>, bal2: Option<Dropdown>) returns (ok: bool)
      modifies this
      ensures ok
      ensures mainDropdown == main && balanceDropdown1 == bal1 && balanceDropdown2 == bal2
      ensures mainSelection == "" && balanceSelection1 == "" && balanceSelection2 == ""
      ensures BalanceExclusive()
    {
      mainDropdown, balanceDropdown1, balanceDropdown2 := main, bal1, bal2;
      mainSelection, balanceSelection1, balanceSelection2 := "", "", "";
      return true;
    }

    method Deinitialize()
      modifies this
      ensures mainDropdown.None? && balanceDropdown1.None? && balanceDropdown2.None?
      ensures mainSelection == "" && balanceSelection1 == "" && balanceSelection2 == ""
      ensures BalanceExclusive()
    {
      mainDropdown, balanceDropdown1, balanceDropdown2 := None, None, None;
      mainSelection, balanceSelection1, balanceSelection2 := "", "", "";
    }

    method SetMainSelection(deviceName: string)
      modifies this
      ensures mainSelection == deviceName && mainDropdown == SelectedIn(old(mainDropdown), deviceName)
      ensures balanceDropdown1 == old(balanceDropdown1) && balanceDropdown2 == old(balanceDropdown2)
      ensures balanceSelection1 == old(balanceSelection1) && balanceSelection2 == old(balanceSelection2)
    {
      mainSelection := deviceName;
      mainDropdown := SetDropdownSelection(mainDropdown, deviceName);
    }

    method EnsureBalanceExclusivity()
      modifies this
      ensures BalanceExclusive()
      ensures balanceSelection2 == ExclusiveSecond(old(balanceSelection1), old(balanceSelection2))
      ensures balanceDropdown2 ==
        ExclusiveSecondDropdown(old(balanceSelection1), old(balanceSelection2), old(balanceDropdown2))
      ensures mainDropdown == old(mainDropdown) && balanceDropdown1 == old(balanceDropdown1)
      ensures mainSelection == old(mainSelection) && balanceSelection1 == old(balanceSelection1)
    {
      if balanceSelection1 == balanceSelection2 && balanceSelection1 != "" {
        balanceSelection2 := "";
        if balanceDropdown2.Some? {
          balanceDropdown2 := Some(balanceDropdown2.value.(selected := 0));
        }
      }
    }

    /**
     * `setBalanceSelections`: both selections and dropdowns set, then the
     * second cleared when it repeats the first.
     */
    method SetBalanceSelections(device1: string, device2: string)
      modifies this
      ensures BalanceExclusive()
      ensures balanceSelection1 == device1 && balanceSelection2 == ExclusiveSecond(device1, device2)
      ensures balanceDropdown1 == SelectedIn(old(balanceDropdown1), device1)
      ensures balanceDropdown2 ==
        ExclusiveSecondDropdown(device1, device2, SelectedIn(old(balanceDropdown2), device2))
      ensures mainDropdown == old(mainDropdown) && mainSelection == old(mainSelection)
    {
      balanceSelection1 := device1;
      balanceSelection2 := device2;
      balanceDropdown1 := SetDropdownSelection(balanceDropdown1, device1);
      balanceDropdown2 := SetDropdownSelection(balanceDropdown2, device2);
      EnsureBalanceExclusivity();
    }

    /** Tabs 0 and 1 share the main selection, tab 2 shows the first balance device, others nothing. */
    function GetSelectedDeviceForTab(tabIndex: int): (r: string)
      reads this
      ensures tabIndex == MASTER || tabIndex == SINGLE ==> r == mainSelection
      ensures tabIndex == BALANCE ==> r == balanceSelection1
      ensures tabIndex != MASTER && tabIndex != SINGLE && tabIndex != BALANCE ==> r == ""
    {
      if tabIndex == 0 || tabIndex == 1 then mainSelection
      else if tabIndex == 2 then balanceSelection1
      else ""
    }

    /**
     * `setSelectedDeviceForTab`: the main selection for tabs 0 and 1, the
     * first balance device (keeping the second) for tab 2, nothing otherwise.
     */
    method SetSelectedDeviceForTab(tabIndex: int, deviceName: string)
      modifies this
      ensures tabIndex == MASTER || tabIndex == SINGLE ==>
        mainSelection == deviceName && mainDropdown == SelectedIn(old(mainDropdown), deviceName) &&
        balanceSelection1 == old(balanceSelection1) && balanceSelection2 == old(balanceSelection2) &&
        balanceDropdown1 == old(balanceDropdown1) && balanceDropdown2 == old(balanceDropdown2)
      ensures tabIndex == BALANCE ==>
        mainSelection == old(mainSelection) && mainDropdown == old(mainDropdown) &&
        balanceSelection1 == deviceName &&
        balanceSelection2 == ExclusiveSecond(deviceName, old(balanceSelection2)) &&
        balanceDropdown1 == SelectedIn(old(balanceDropdown1), deviceName) &&
        balanceDropdown2 ==
          ExclusiveSecondDropdown(deviceName, old(balanceSelection2), SelectedIn(old(balanceDropdown2), old(balanceSelection2)))
      ensures tabIndex != MASTER && tabIndex != SINGLE && tabIndex != BALANCE ==>
        mainSelection == old(mainSelection) && mainDropdown == old(mainDropdown) &&
        balanceSelection1 == old(balanceSelection1) && balanceSelection2 == old(balanceSelection2) &&
        balanceDropdown1 == old(balanceDropdown1) && balanceDropdown2 == old(balanceDropdown2)
      ensures old(BalanceExclusive()) ==> BalanceExclusive()
      ensures tabIndex != BALANCE ==>
        GetSelectedDeviceForTab(tabIndex) ==
        (if tabIndex == MASTER || tabIndex == SINGLE then deviceName else "")
      ensures tabIndex == BALANCE ==> GetSelectedDeviceForTab(tabIndex) == deviceName
    {
      if tabIndex == 0 || tabIndex == 1 {
        SetMainSelection(deviceName);
      } else if tabIndex == 2 {
        SetBalanceSelections(deviceName, balanceSelection2);
      }
    }

    /** `refreshAllDropdowns`: every dropdown shows the levels, then exclusivity is restored. */
    method RefreshAllDropdowns(audioLevels: seq<AudioLevel>)
      modifies this
      ensures BalanceExclusive()
      ensures mainDropdown == Refreshed(old(mainDropdown), audioLevels)
      ensures balanceDropdown1 == Refreshed(old(balanceDropdown1), audioLevels)
      ensures balanceDropdown2 == ExclusiveSecondDropdown(old(balanceSelection1), old(balanceSelection2),
        Refreshed(old(balanceDropdown2), audioLevels))
      ensures mainSelection == old(mainSelection) && balanceSelection1 == old(balanceSelection1)
      ensures balanceSelection2 == ExclusiveSecond(old(balanceSelection1), old(balanceSelection2))
    {
      mainDropdown := Refreshed(mainDropdown, audioLevels);
      balanceDropdown1 := Refreshed(balanceDropdown1, audioLevels);
      balanceDropdown2 := Refreshed(balanceDropdown2, audioLevels);
      EnsureBalanceExclusivity();
    }

    /** `initializeBalanceSelections`: the first two devices, or nothing with fewer than two. */
    method InitializeBalanceSelections(audioLevels: seq<AudioLevel>)
      modifies this
      ensures |audioLevels| < 2 ==>
        mainSelection == old(mainSelection) && mainDropdown == old(mainDropdown) &&
        balanceSelection1 == old(balanceSelection1) && balanceSelection2 == old(balanceSelection2) &&
        balanceDropdown1 == old(balanceDropdown1) && balanceDropdown2 == old(balanceDropdown2)
      ensures |audioLevels| >= 2 ==>
        var d1 := audioLevels[0].processName;
        var d2 := audioLevels[1].processName;
        balanceSelection1 == d1 && balanceSelection2 == ExclusiveSecond(d1, d2) &&
        balanceDropdown1 == SelectedIn(old(balanceDropdown1), d1) &&
        balanceDropdown2 == ExclusiveSecondDropdown(d1, d2, SelectedIn(old(balanceDropdown2), d2)) &&
        mainSelection == old(mainSelection) && mainDropdown == old(mainDropdown)
      ensures old(BalanceExclusive()) ==> BalanceExclusive()
    {
      if |audioLevels| < 2 {
        return;
      }
      SetBalanceSelections(audioLevels[0].processName, audioLevels[1].processName);
    }
  }
}
