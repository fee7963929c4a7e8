/**
 * The SD-card file explorer: folder-name validation for "new folder", the
 * directory listing (entries reported by the card, filtered and sorted with
 * directories first and names ascending), navigation up, back and to a path
 * with a bounded history of previous locations, and the logo-file helpers
 * that derive a process name, a label and an icon for a listed file.
 *
 * The card is not modelled: what it reports for one directory read is an
 * `SdRead` value, and the list widget's scroll position is a parameter.
 */
module FileExplorer {
  import opened Wrappers
  import opened Text
  import StringOrder

  // ---------------------------------------------------------------------------
  // Folder names
  // ---------------------------------------------------------------------------

  const MAX_FOLDER_NAME_LENGTH: nat := 50
  /** Characters a new folder's name may not contain. */
  const INVALID_FOLDER_CHARS: seq<char> := ['/', '\\', ':', '*', '?', '"', '<', '>', '|']

  const ENTER_NAME: string := "Please enter a folder name"
  const EMPTY_NAME: string := "Folder name cannot be empty"
  const NAME_TOO_LONG: string := "Folder name too long (max 50 characters)"
  const INVALID_CHARACTER: string := "Invalid character found"
  const RESERVED_NAME: string := "Reserved name not allowed"

  predicate HasInvalidChar(name: string)
  {
    exists i :: 0 <= i < |INVALID_FOLDER_CHARS| && INVALID_FOLDER_CHARS[i] in name
  }

  /** The device names DOS reserves, compared ignoring case. */
  predicate IsReservedName(name: string)
  {
    EqualsIgnoreCase(name, "con") || EqualsIgnoreCase(name, "prn") ||
    EqualsIgnoreCase(name, "aux") || EqualsIgnoreCase(name, "nul")
  }

  /** A trimmed name the dialog passes on to `createDirectory`. */
  predicate AcceptableFolderName(name: string)
  {
    0 < |name| <= MAX_FOLDER_NAME_LENGTH && !HasInvalidChar(name) && !IsReservedName(name)
  }

  /** The scan over the invalid characters, stopping at the first one found. */
  method FindInvalidChar(name: string) returns (found: bool)
    ensures found <==> HasInvalidChar(name)
  {
    var i := 0;
    while i < |INVALID_FOLDER_CHARS|
      invariant i <= |INVALID_FOLDER_CHARS|
      invariant forall k :: 0 <= k < i ==> INVALID_FOLDER_CHARS[k] !in name
    {
      if IndexOf(name, [INVALID_FOLDER_CHARS[i]]) >= 0 {
        assert INVALID_FOLDER_CHARS[i] in name by {
          var p := IndexOf(name, [INVALID_FOLDER_CHARS[i]]);
          assert name[p..p + 1] == [INVALID_FOLDER_CHARS[i]];
          assert name[p] == INVALID_FOLDER_CHARS[i];
        }
        return true;
      }
      forall p | 0 <= p < |name| ensures name[p] != INVALID_FOLDER_CHARS[i] {
        CharAt(name, INVALID_FOLDER_CHARS[i], p);
      }
      i := i + 1;
    }
    return false;
  }

  /**
   * The checks of the folder-creation dialog, in order; `text` is the text
   * area's content (`None` for a null pointer).  `Ok` carries the trimmed name.
   */
  method ValidateFolderName(text: Option<string>) returns (r: Result<string, string>)
    ensures r.Ok? <==> text.Some? && text.value != "" && AcceptableFolderName(Trim(text.value))
    ensures r.Ok? ==> r.value == Trim(text.value)
    ensures text.None? || text.value == "" ==> r == Err(ENTER_NAME)
    ensures text.Some? && text.value != "" ==>
      var name := Trim(text.value);
      (name == "" ==> r == Err(EMPTY_NAME)) &&
      (|name| > MAX_FOLDER_NAME_LENGTH ==> r == Err(NAME_TOO_LONG)) &&
      (0 < |name| <= MAX_FOLDER_NAME_LENGTH && HasInvalidChar(name) ==> r == Err(INVALID_CHARACTER)) &&
      (0 < |name| <= MAX_FOLDER_NAME_LENGTH && !HasInvalidChar(name) && IsReservedName(name) ==> r == Err(RESERVED_NAME))
  {
    if text.None? || text.value == "" {
      return Err(ENTER_NAME);
    }
    var name := Trim(text.value);
    if |name| == 0 {
      return Err(EMPTY_NAME);
    }
    if |name| > MAX_FOLDER_NAME_LENGTH {
      return Err(NAME_TOO_LONG);
    }
    var bad := FindInvalidChar(name);
    if bad {
      return Err(INVALID_CHARACTER);
    }
    if IsReservedName(name) {
      return Err(RESERVED_NAME);
    }
    return Ok(name);
  }

  /** An accepted name is a single path component without surrounding blanks. */
  lemma AcceptedFolderNameIsComponent(text: string)
    requires AcceptableFolderName(Trim(text))
    ensures '/' !in Trim(text) && '\\' !in Trim(text)
    ensures !IsSpace(Trim(text)[0]) && !IsSpace(Trim(text)[|Trim(text)| - 1])
  {
    TrimmedComponent(text);
  }

  lemma TrimmedComponent(text: string)
    requires Trim(text) != [] && !HasInvalidChar(Trim(text))
    ensures '/' !in Trim(text) && '\\' !in Trim(text)
    ensures !IsSpace(Trim(text)[0]) && !IsSpace(Trim(text)[|Trim(text)| - 1])
  {
    NoSeparator(Trim(text));
    TrimmedEnds(text);
  }

  lemma NoSeparator(name: string)
    requires !HasInvalidChar(name)
    ensures '/' !in name && '\\' !in name
  {
    assert INVALID_FOLDER_CHARS[0] == '/' && INVALID_FOLDER_CHARS[1] == '\\';
    assert !(INVALID_FOLDER_CHARS[0] in name) && !(INVALID_FOLDER_CHARS[1] in name);
  }

  lemma TrimmedEnds(text: string)
    requires Trim(text) != []
    ensures !IsSpace(Trim(text)[0]) && !IsSpace(Trim(text)[|Trim(text)| - 1])
  {
    var s := TrimStart(text);
    var name := TrimEnd(s);
    assert |name| <= |s| && name == s[..|name|];
    assert name[0] == s[0];
  }

  // ---------------------------------------------------------------------------
  // Listing
  // ---------------------------------------------------------------------------

  /** One row of the current directory's list, with the logo fields the listing fills in. */
  datatype FileItem = FileItem(
    name: string,
    fullPath: string,
    isDirectory: bool,
    sizeString: string,
    isLogoFile: bool,
    isLogoMetadata: bool,
    hasLogoMetadata: bool,
    logoVerified: bool,
    logoFlagged: bool,
    processNameFromFile: string)

  /** One entry as the card reports it; `sizeString` is its formatted size. */
  datatype Entry = Entry(name: string, isDirectory: bool, sizeString: string)

  const MAX_PATH_LENGTH: nat := 200
  const MAX_ENTRY_NAME_LENGTH: nat := 255
  const MAX_FULL_PATH_LENGTH: nat := 255
  /** Free heap, in bytes, a directory load needs before it starts. */
  const MIN_LOAD_HEAP: nat := 10240

  /** A directory path the loader accepts. */
  predicate PathLengthOk(path: string)
  {
    0 < |path| <= MAX_PATH_LENGTH
  }

  /** The listing callback keeps an entry with a usable name and path length. */
  predicate EntryAccepted(dir: string, name: string)
  {
    0 < |name| <= MAX_ENTRY_NAME_LENGTH && |dir| + |name| + 2 <= MAX_FULL_PATH_LENGTH
  }

  /** Directory and name joined by exactly one separator. */
  function JoinPath(dir: string, name: string): (r: string)
    ensures StartsWith(r, dir) && EndsWith(r, name)
    ensures |name| + 1 <= |r| <= |dir| + |name| + 1
    ensures r[|r| - |name| - 1] == '/'
  {
    var sep := if EndsWith(dir, "/") then "" else "/";
    var r := dir + sep + name;
    assert r[..|dir|] == dir;
    assert r[|r| - |name|..] == name;
    r
  }

  /** The item the listing callback builds for an accepted entry, before the logo fields are filled in. */
  function ItemOf(dir: string, e: Entry): FileItem
  {
    FileItem(e.name, JoinPath(dir, e.name), e.isDirectory, e.sizeString, false, false, false, false, false, "")
  }

  /** The item with its logo fields cleared, as ItemOf builds it. */
  function Unmarked(x: FileItem): FileItem
  {
    x.(isLogoFile := false, isLogoMetadata := false, hasLogoMetadata := false,
       logoVerified := false, logoFlagged := false, processNameFromFile := "")
  }

  /** The items `addItem` collected, in the order the card reported them, before the logo fields. */
  function Collect(dir: string, entries: seq<Entry>): (r: seq<FileItem>)
    ensures |r| <= |entries|
    ensures forall i :: 0 <= i < |r| ==> r[i].name != "" && StartsWith(r[i].fullPath, dir) && r[i] == Unmarked(r[i])
    ensures forall e :: e in entries && EntryAccepted(dir, e.name) ==> ItemOf(dir, e) in r
    ensures forall x :: x in r ==> exists e :: e in entries && EntryAccepted(dir, e.name) && x == ItemOf(dir, e)
    decreases |entries|
  {
    if entries == [] then []
    else
      var init := entries[..|entries| - 1];
      var rest := Collect(dir, init);
      var e := entries[|entries| - 1];
      assert forall x :: x in entries ==> x in init || x == e;
      assert forall x :: x in init ==> x in entries;
      if EntryAccepted(dir, e.name) then rest + [ItemOf(dir, e)] else rest
  }

  /** The indices of the accepted entries whose item is `x`. */
  function AcceptedAt(dir: string, entries: seq<Entry>, x: FileItem): set<nat>
  {
    set i: nat | i < |entries| && Produces(dir, entries[i], x)
  }

  /** The entry is accepted and its item is `x`. */
  predicate Produces(dir: string, e: Entry, x: FileItem)
  {
    EntryAccepted(dir, e.name) && ItemOf(dir, e) == x
  }

  /**
   * Each item occurs in the collected list exactly as often as accepted
   * entries produce it: the list is the accepted entries' items, no more.
   */
  lemma {:induction false} CollectCounts(dir: string, entries: seq<Entry>, x: FileItem)
    ensures multiset(Collect(dir, entries))[x] == |AcceptedAt(dir, entries, x)|
    decreases |entries|
  {
    if entries == [] {
      assert AcceptedAt(dir, entries, x) == {};
    } else {
      var n := |entries| - 1;
      var init := entries[..n];
      var e := entries[n];
      CollectCounts(dir, init, x);
      var rest := Collect(dir, init);
      AcceptedAtSnoc(dir, entries, x);
      if EntryAccepted(dir, e.name) {
        assert Collect(dir, entries) == rest + [ItemOf(dir, e)];
        assert multiset(rest + [ItemOf(dir, e)]) == multiset(rest) + multiset{ItemOf(dir, e)};
      } else {
        assert Collect(dir, entries) == rest;
      }
    }
  }

  lemma AcceptedAtSnoc(dir: string, entries: seq<Entry>, x: FileItem)
    requires entries != []
    ensures var n := |entries| - 1;
      |AcceptedAt(dir, entries, x)| ==
        |AcceptedAt(dir, entries[..n], x)| + (if Produces(dir, entries[n], x) then 1 else 0)
  {
    var n := |entries| - 1;
    var init := entries[..n];
    var small := AcceptedAt(dir, init, x);
    var big := AcceptedAt(dir, entries, x);
    var last: set<nat> := if Produces(dir, entries[n], x) then {n} else {};
    forall i | i in big ensures i in small + last {
      if i < n {
        assert init[i] == entries[i];
      }
    }
    forall i | i in small + last ensures i in big {
      if i < n {
        assert init[i] == entries[i];
      }
    }
    assert big == small + last;
    assert n !in small;
  }

  /** A logo file is a `.bin` or `.png` file. */
  predicate IsLogoFileName(filename: string)
  {
    EndsWith(filename, ".bin") || EndsWith(filename, ".png")
  }

  /** A name `isLogoDirectory` takes as a sign of logos. */
  predicate MentionsLogo(name: string)
  {
    EndsWith(name, ".bin") || EndsWith(name, ".png") || Contains(ToLower(name), "logo")
  }

  /**
   * `isLogoDirectory`: the path is under "/logos" or mentions "logo", or an
   * item already in the list (`shown`) looks like a logo.
   */
  predicate IsLogoDirectory(path: string, shown: seq<FileItem>)
  {
    StartsWith(path, "/logos") || Contains(path, "logo") ||
    exists j :: 0 <= j < |shown| && MentionsLogo(shown[j].name)
  }

  /** The verified and flagged marks a logo's stored metadata carries. */
  datatype LogoMarks = LogoMarks(verified: bool, flagged: bool)

  /**
   * What the logo store answers: the (process name, mapped file) pairs in its
   * listing order, and the metadata of a process (`None` where `getLogoInfo`
   * returns an empty process name).
   */
  datatype LogoStore = LogoStore(mappings: seq<(string, string)>, info: string -> Option<LogoMarks>)

  /** The first process whose mapping names the file. */
  function MappedProcess(filename: string, mappings: seq<(string, string)>): (r: Option<string>)
    ensures r.None? <==> forall i :: 0 <= i < |mappings| ==> mappings[i].1 != filename
    ensures r.Some? ==> exists i :: (0 <= i < |mappings| && mappings[i] == (r.value, filename) &&
      forall j :: 0 <= j < i ==> mappings[j].1 != filename)
    decreases |mappings|
  {
    if mappings == [] then None
    else if mappings[0].1 == filename then Some(mappings[0].0)
    else
      var r := MappedProcess(filename, mappings[1..]);
      assert forall i :: 1 <= i < |mappings| ==> mappings[i] == mappings[1..][i - 1];
      r
  }

  /** The process name a logo file stands for: its mapping, or the guess from its name; "" for other files. */
  function ProcessNameOf(filename: string, mappings: seq<(string, string)>): (r: string)
    ensures !IsLogoFileName(filename) ==> r == ""
    ensures IsLogoFileName(filename) && MappedProcess(filename, mappings).None? ==> r == FallbackProcessName(filename)
    ensures IsLogoFileName(filename) && MappedProcess(filename, mappings).Some? ==>
      exists i :: 0 <= i < |mappings| && mappings[i] == (r, filename)
  {
    if !IsLogoFileName(filename) then ""
    else match MappedProcess(filename, mappings)
      case Some(p) => p
      case None => FallbackProcessName(filename)
  }

  /**
   * `enhanceItemWithLogoInfo` for an item of the listing: `currentPath` is the
   * manager's current path and `shown` the items added before this one.
   */
  function Enhanced(item: FileItem, currentPath: string, shown: seq<FileItem>, store: LogoStore): (r: FileItem)
    requires item == Unmarked(item)
    ensures Unmarked(r) == item
    ensures r.isLogoFile <==> !item.isDirectory && IsLogoDirectory(currentPath, shown) && IsLogoFileName(item.name)
    ensures r.isLogoMetadata <==> (!item.isDirectory && IsLogoDirectory(currentPath, shown) &&
      EndsWith(item.name, ".json") && StartsWith(currentPath, "/logos/metadata"))
    ensures r.isLogoFile ==> r.processNameFromFile == ProcessNameOf(item.name, store.mappings)
    ensures r.isLogoMetadata ==> r.processNameFromFile == item.name[..|item.name| - 5]
    ensures r.hasLogoMetadata <==> r.isLogoFile && r.processNameFromFile != "" && store.info(r.processNameFromFile).Some?
    ensures r.hasLogoMetadata ==> LogoMarks(r.logoVerified, r.logoFlagged) == store.info(r.processNameFromFile).value
    ensures !r.hasLogoMetadata ==> !r.logoVerified && !r.logoFlagged
  {
    if item.isDirectory || !IsLogoDirectory(currentPath, shown) then item
    else
      var asLogo :=
        if IsLogoFileName(item.name) then
          var name := ProcessNameOf(item.name, store.mappings);
          var marks := if name != "" then store.info(name) else None;
          match marks
          case Some(m) =>
            item.(isLogoFile := true, processNameFromFile := name, hasLogoMetadata := true,
                  logoVerified := m.verified, logoFlagged := m.flagged)
          case None => item.(isLogoFile := true, processNameFromFile := name)
        else item;
      if EndsWith(item.name, ".json") && StartsWith(currentPath, "/logos/metadata") then
        assert !IsLogoFileName(item.name) by { JsonIsNotLogo(item.name); }
        asLogo.(isLogoMetadata := true, processNameFromFile := item.name[..|item.name| - 5])
      else asLogo
  }

  /** No name ends in both ".json" and ".bin" or ".png". */
  lemma JsonIsNotLogo(name: string)
    requires EndsWith(name, ".json")
    ensures !IsLogoFileName(name)
  {
    assert name[|name| - 4..] == name[|name| - 5..][1..];
  }

  /**
   * The rows of one load in the order the card reported them: each collected
   * item enhanced while the items before it are already in the list.
   */
  function Listed(dir: string, currentPath: string, store: LogoStore, entries: seq<Entry>): (r: seq<FileItem>)
    ensures |r| == |Collect(dir, entries)|
  {
    var c := Collect(dir, entries);
    seq(|c|, k requires 0 <= k < |c| => Enhanced(c[k], currentPath, c[..k], store))
  }

  /** The listing comparator: directories first, then names in `strcmp` order. */
  predicate Before(a: FileItem, b: FileItem)
  {
    if a.isDirectory != b.isDirectory then a.isDirectory else StringOrder.Less(a.name, b.name)
  }

  lemma BeforeIrreflexive(a: FileItem)
    ensures !Before(a, a)
  {
    StringOrder.LessIrreflexive(a.name);
  }

  lemma BeforeTransitive(a: FileItem, b: FileItem, c: FileItem)
    requires Before(a, b) && Before(b, c)
    ensures Before(a, c)
  {
    if a.isDirectory == b.isDirectory && b.isDirectory == c.isDirectory {
      StringOrder.LessTransitive(a.name, b.name, c.name);
    }
  }

  /** No item is listed after one the comparator puts before it. */
  predicate Ordered(s: seq<FileItem>)
  {
    forall i, j :: 0 <= i < j < |s| ==> !Before(s[j], s[i])
  }

  /** An item that goes before the first of an ordered listing may head it. */
  lemma InsertAhead(x: FileItem, s: seq<FileItem>)
    requires Ordered(s) && s != [] && Before(x, s[0])
    ensures Ordered([x] + s)
  {
    forall k | 0 <= k < |s| ensures !Before(s[k], x) {
      if Before(s[k], x) {
        BeforeTransitive(s[k], x, s[0]);
        BeforeIrreflexive(s[0]);
        assert false;
      }
    }
  }

  /** The first of an ordered listing may head the rest with `x` inserted. */
  lemma InsertBehind(x: FileItem, s: seq<FileItem>, tail: seq<FileItem>)
    requires Ordered(s) && s != [] && !Before(x, s[0]) && Ordered(tail)
    requires forall y :: y in tail <==> y == x || y in s[1..]
    ensures Ordered([s[0]] + tail)
  {
    forall k | 0 <= k < |tail| ensures !Before(tail[k], s[0]) {
      if tail[k] != x {
        assert tail[k] in s[1..];
        var j :| 0 <= j < |s[1..]| && s[1..][j] == tail[k];
        assert s[j + 1] == tail[k];
      }
    }
  }

  /** `x` inserted ahead of the first item it goes before. */
  function Insert(x: FileItem, s: seq<FileItem>): (r: seq<FileItem>)
    requires Ordered(s)
    ensures Ordered(r)
    ensures multiset(r) == multiset(s) + multiset{x}
    ensures forall y :: y in r <==> y == x || y in s
    decreases |s|
  {
    if s == [] then [x]
    else if Before(x, s[0]) then
      InsertAhead(x, s);
      [x] + s
    else
      var tail := Insert(x, s[1..]);
      InsertBehind(x, s, tail);
      assert s == [s[0]] + s[1..];
      [s[0]] + tail
  }

  /** The listing after the sort: a reordering of the collected items in listing order. */
  function SortListing(items: seq<FileItem>): (r: seq<FileItem>)
    ensures Ordered(r)
    ensures multiset(r) == multiset(items)
    decreases |items|
  {
    if items == [] then []
    else
      assert items == [items[0]] + items[1..];
      Insert(items[0], SortListing(items[1..]))
  }

  /** In an ordered listing directories come first and each group is in name order. */
  lemma OrderedListing(s: seq<FileItem>)
    requires Ordered(s)
    ensures forall i, j :: 0 <= i < j < |s| && s[j].isDirectory ==> s[i].isDirectory
    ensures forall i, j :: 0 <= i < j < |s| && s[i].isDirectory == s[j].isDirectory ==>
      !StringOrder.Less(s[j].name, s[i].name)
  {
  }

  /** Two ordered listings of the same items with distinct names start alike. */
  lemma OrderedHeadsEqual(a: seq<FileItem>, b: seq<FileItem>)
    requires Ordered(a) && Ordered(b) && multiset(a) == multiset(b) && a != [] && DistinctNames(a)
    ensures b != [] && a[0] == b[0]
  {
    assert a[0] in multiset(b);
    assert b != [];
    assert b[0] in multiset(a);
    var i :| 0 <= i < |b| && b[i] == a[0];
    var j :| 0 <= j < |a| && a[j] == b[0];
    if a[0] != b[0] {
      assert !Before(a[0], b[0]) && !Before(b[0], a[0]);
      assert a[0].name != b[0].name;
      StringOrder.LessTotal(a[0].name, b[0].name);
      assert false;
    }
  }

  /** Removing equal first items keeps two listings of the same items alike. */
  lemma TailsPermuted(a: seq<FileItem>, b: seq<FileItem>)
    requires a != [] && b != [] && a[0] == b[0] && multiset(a) == multiset(b)
    ensures multiset(a[1..]) == multiset(b[1..])
  {
    assert a == [a[0]] + a[1..] && b == [b[0]] + b[1..];
    assert multiset(a[1..]) == multiset(a) - multiset{a[0]};
    assert multiset(b[1..]) == multiset(b) - multiset{b[0]};
  }

  predicate DistinctNames(s: seq<FileItem>)
  {
    forall i, j :: 0 <= i < j < |s| ==> s[i].name != s[j].name
  }

  lemma TailOrdered(s: seq<FileItem>)
    requires s != [] && Ordered(s) && DistinctNames(s)
    ensures Ordered(s[1..]) && DistinctNames(s[1..])
  {
    forall i, j | 0 <= i < j < |s[1..]| ensures s[1..][i] == s[i + 1] && s[1..][j] == s[j + 1] {
    }
  }

  /** Entries with distinct names have exactly one ordered listing. */
  lemma {:induction false} OrderedListingUnique(a: seq<FileItem>, b: seq<FileItem>)
    requires Ordered(a) && Ordered(b) && multiset(a) == multiset(b) && DistinctNames(a)
    ensures a == b
    decreases |a|
  {
    if a == [] {
      assert |b| == |multiset(b)| == 0;
    } else {
      OrderedHeadsEqual(a, b);
      TailsPermuted(a, b);
      TailOrdered(a);
      assert Ordered(b[1..]) by {
        forall i, j | 0 <= i < j < |b[1..]| ensures !Before(b[1..][j], b[1..][i]) {
          assert b[1..][i] == b[i + 1] && b[1..][j] == b[j + 1];
        }
      }
      OrderedListingUnique(a[1..], b[1..]);
      assert a == [a[0]] + a[1..] && b == [b[0]] + b[1..];
    }
  }

  // ---------------------------------------------------------------------------
  // Loading a directory
  // ---------------------------------------------------------------------------

  datatype FeState = Idle | Loading | Failed

  /** What the list shows: the items, the selected row (by name) and the load state. */
  datatype Listing = Listing(items: seq<FileItem>, selected: Option<string>, state: FeState)

  /** What the card answers for one directory read. */
  datatype SdRead = SdRead(mounted: bool, freeHeap: nat, directoryExists: bool, entries: seq<Entry>, listed: bool)

  /** Every check of the loader passes. */
  predicate LoadSucceeds(path: string, sd: SdRead)
  {
    sd.mounted && PathLengthOk(path) && sd.freeHeap >= MIN_LOAD_HEAP && sd.directoryExists && sd.listed
  }

  /**
   * The list after `loadDirectory(path)` while the manager's current path is
   * `currentPath`: untouched when the card is missing or the path unusable,
   * marked failed on low memory, otherwise cleared and refilled from the
   * card, sorted only when the listing completed.
   */
  function LoadResult(before: Listing, path: string, currentPath: string, store: LogoStore, sd: SdRead): (r: Listing)
    ensures !sd.mounted || !PathLengthOk(path) ==> r == before
    ensures sd.mounted && PathLengthOk(path) ==> (r.state == Idle <==> LoadSucceeds(path, sd))
  {
    if !sd.mounted || !PathLengthOk(path) then before
    else if sd.freeHeap < MIN_LOAD_HEAP then before.(state := Failed)
    else if !sd.directoryExists then Listing([], None, Failed)
    else if !sd.listed then Listing(Listed(path, currentPath, store, sd.entries), None, Failed)
    else Listing(SortListing(Listed(path, currentPath, store, sd.entries)), None, Idle)
  }

  /** Clearing the logo fields of the rows of a load gives the collected items back. */
  lemma ListedUnmarked(dir: string, currentPath: string, store: LogoStore, entries: seq<Entry>)
    ensures var l := Listed(dir, currentPath, store, entries);
      forall k :: 0 <= k < |l| ==> Unmarked(l[k]) == Collect(dir, entries)[k]
  {
  }

  /**
   * A successful load shows exactly the usable entries of the directory, each
   * under the loaded path, with directories first and names ascending; with
   * their logo fields cleared the rows are the items of the accepted entries.
   */
  lemma LoadedListing(before: Listing, path: string, currentPath: string, store: LogoStore, sd: SdRead)
    requires LoadSucceeds(path, sd)
    ensures var r := LoadResult(before, path, currentPath, store, sd);
      Ordered(r.items) && r.selected.None? &&
      multiset(r.items) == multiset(Listed(path, currentPath, store, sd.entries)) &&
      |r.items| == |Collect(path, sd.entries)| &&
      (forall x :: x in r.items ==>
        exists e :: e in sd.entries && EntryAccepted(path, e.name) && Unmarked(x) == ItemOf(path, e)) &&
      (forall e :: e in sd.entries && EntryAccepted(path, e.name) ==>
        exists x :: x in r.items && Unmarked(x) == ItemOf(path, e))
  {
    var r := LoadResult(before, path, currentPath, store, sd);
    var l := Listed(path, currentPath, store, sd.entries);
    assert r.items == SortListing(l);
    assert |r.items| == |multiset(r.items)| == |multiset(l)| == |l|;
    RowsAreAccepted(r.items, path, currentPath, store, sd.entries);
    AcceptedAreRows(r.items, path, currentPath, store, sd.entries);
  }

  lemma RowsAreAccepted(rows: seq<FileItem>, path: string, currentPath: string, store: LogoStore, entries: seq<Entry>)
    requires multiset(rows) == multiset(Listed(path, currentPath, store, entries))
    ensures forall x :: x in rows ==>
      exists e :: e in entries && EntryAccepted(path, e.name) && Unmarked(x) == ItemOf(path, e)
  {
    var c := Collect(path, entries);
    var l := Listed(path, currentPath, store, entries);
    forall x | x in rows
      ensures exists e :: e in entries && EntryAccepted(path, e.name) && Unmarked(x) == ItemOf(path, e)
    {
      assert x in multiset(l);
      var k :| 0 <= k < |l| && l[k] == x;
      assert Unmarked(x) == c[k];
      assert c[k] in c;
    }
  }

  lemma AcceptedAreRows(rows: seq<FileItem>, path: string, currentPath: string, store: LogoStore, entries: seq<Entry>)
    requires multiset(rows) == multiset(Listed(path, currentPath, store, entries))
    ensures forall e :: e in entries && EntryAccepted(path, e.name) ==>
      exists x :: x in rows && Unmarked(x) == ItemOf(path, e)
  {
    var c := Collect(path, entries);
    var l := Listed(path, currentPath, store, entries);
    forall e | e in entries && EntryAccepted(path, e.name)
      ensures exists x :: x in rows && Unmarked(x) == ItemOf(path, e)
    {
      var k :| 0 <= k < |c| && c[k] == ItemOf(path, e);
      assert Unmarked(l[k]) == c[k];
      assert l[k] in multiset(rows);
    }
  }

  // ---------------------------------------------------------------------------
  // Finding: the logo directory test reads the path being left
  // ---------------------------------------------------------------------------

  /**
   * `navigateToPath` loads the target before it sets `currentPath`, so the
   * logo test of every row reads the directory being left.  Going from "/"
   * into "/logos/files", which holds a single "a.bin", shows that file as a
   * plain file.
   */
  lemma LogoFileUnmarkedOnEntry(before: Listing, store: LogoStore, sd: SdRead)
    requires sd == SdRead(true, MIN_LOAD_HEAP, true, [Entry("a.bin", false, "1.0 KB")], true)
    ensures var r := LoadResult(before, "/logos/files", "/", store, sd);
      |r.items| == 1 && r.items[0].name == "a.bin" && !r.items[0].isLogoFile
  {
    var e := sd.entries[0];
    assert EntryAccepted("/logos/files", e.name);
    var c := Collect("/logos/files", sd.entries);
    assert Collect("/logos/files", sd.entries[..0]) == [];
    assert c == [ItemOf("/logos/files", e)];
    assert !StartsWith("/", "/logos");
    assert !Contains("/", "logo");
    var l := Listed("/logos/files", "/", store, sd.entries);
    assert !IsLogoDirectory("/", c[..0]);
    assert l == [Enhanced(c[0], "/", c[..0], store)];
    assert SortListing(l) == Insert(l[0], SortListing([]));
  }

  /**
   * The load as evidently intended reads the directory being loaded as the
   * current path (what a reload of the current directory does).  Then every
   * file of a directory under "/logos" with a ".bin" or ".png" name is shown
   * as a logo file, and no other row is.
   */
  lemma IntendedLoadMarksLogoFiles(before: Listing, path: string, store: LogoStore, sd: SdRead)
    requires LoadSucceeds(path, sd) && StartsWith(path, "/logos")
    ensures var r := LoadResult(before, path, path, store, sd);
      forall x :: x in r.items ==> (x.isLogoFile <==> !x.isDirectory && IsLogoFileName(x.name))
  {
    var r := LoadResult(before, path, path, store, sd);
    var l := Listed(path, path, store, sd.entries);
    var c := Collect(path, sd.entries);
    assert r.items == SortListing(l);
    forall x | x in r.items ensures x.isLogoFile <==> !x.isDirectory && IsLogoFileName(x.name) {
      assert x in multiset(l);
      var k :| 0 <= k < |l| && l[k] == x;
      assert c[k] in c;
      assert IsLogoDirectory(path, c[..k]);
    }
  }

  // ---------------------------------------------------------------------------
  // Navigation
  // ---------------------------------------------------------------------------

  /** Where a previous directory was left. */
  datatype NavigationState = NavigationState(path: string, scrollPosition: int, selectedItemName: string)

  /** The value-initialised state `popNavigationState` returns on an empty history. */
  const NO_STATE: NavigationState := NavigationState("", 0, "")

  /** `push_back`, then drop the oldest entry when over the bound. */
  function HistoryPush(h: seq<NavigationState>, s: NavigationState, bound: nat): (r: seq<NavigationState>)
    ensures |h| <= bound ==> |r| <= bound
    ensures r != [] ==> r[|r| - 1] == s
    ensures |r| <= |h| + 1 && r == (h + [s])[|h| + 1 - |r|..]
    ensures |h| < bound ==> r == h + [s]
  {
    var pushed := h + [s];
    if |pushed| > bound then pushed[1..] else pushed
  }

  /** The newest entry and the rest, or the default state on an empty history. */
  function HistoryPop(h: seq<NavigationState>): (r: (NavigationState, seq<NavigationState>))
    ensures h == [] ==> r == (NO_STATE, [])
    ensures h != [] ==> h == r.1 + [r.0]
  {
    if h == [] then (NO_STATE, []) else (h[|h| - 1], h[..|h| - 1])
  }

  /** Popping right after a push gives back the pushed state (LIFO). */
  lemma PopAfterPush(h: seq<NavigationState>, s: NavigationState, bound: nat)
    requires 0 < bound && |h| <= bound
    ensures HistoryPop(HistoryPush(h, s, bound)).0 == s
    ensures |h| < bound ==> HistoryPop(HistoryPush(h, s, bound)).1 == h
    ensures |h| == bound ==> HistoryPop(HistoryPush(h, s, bound)).1 == h[1..]
  {
    var pushed := h + [s];
    if |h| == bound {
      assert pushed[1..][..|h| - 1] == h[1..];
    } else {
      assert pushed[..|h|] == h;
    }
  }

  /** The parent `navigateUp` goes to: the part before the last slash, or the root. */
  function ParentPath(path: string): (r: string)
    ensures r != ""
    ensures LastIndexOf(path, "/") <= 0 ==> r == "/"
    ensures LastIndexOf(path, "/") > 0 ==>
      |r| < |path| && r == path[..|r|] && path[|r|] == '/' && '/' !in path[|r| + 1..]
  {
    var lastSlash := LastIndexOf(path, "/");
    if lastSlash <= 0 then "/"
    else
      var r := path[..lastSlash];
      assert path[lastSlash..lastSlash + 1] == "/";
      var rest := path[lastSlash + 1..];
      forall i | 0 <= i < |rest| ensures rest[i] != '/' {
        CharAt(path, '/', lastSlash + 1 + i);
      }
      r
  }

  /** Going up from a nested directory reaches a strictly shorter path. */
  lemma ParentShorter(path: string)
    requires |path| > 1
    ensures |ParentPath(path)| < |path|
  {
  }

  /**
   * The scroll position and selection `saveCurrentState` records; without a
   * file list (`fileListScroll` is `None`) nothing is recorded.
   */
  function SavedView(scroll: int, lastSelected: string, selected: Option<string>,
                     fileListScroll: Option<int>): (r: (int, string))
    ensures fileListScroll.None? ==> r == (scroll, lastSelected)
    ensures fileListScroll.Some? ==> r.0 == fileListScroll.value && r.1 == selected.GetOr("")
  {
    match fileListScroll
    case None => (scroll, lastSelected)
    case Some(y) => (y, selected.GetOr(""))
  }

  /** The explorer's navigation state: the current path, the list and the history. */
  class FileExplorerManager {
    /** MAX_HISTORY_SIZE. */
    const maxHistorySize: nat
    var initialized: bool
    var currentPath: string
    var listing: Listing
    var history: seq<NavigationState>
    var scrollPosition: int
    var lastSelectedItemName: string

    ghost predicate Valid()
      reads this
    {
      0 < maxHistorySize && |history| <= maxHistorySize
    }

    constructor (maxHistorySize: nat)
      requires 0 < maxHistorySize
      ensures Valid()
      ensures this.maxHistorySize == maxHistorySize && !initialized
      ensures currentPath == "" && listing == Listing([], None, Idle) && history == []
      ensures scrollPosition == 0 && lastSelectedItemName == ""
    {
      this.maxHistorySize := maxHistorySize;
      initialized := false;
      currentPath := "";
      listing := Listing([], None, Idle);
      history := [];
      scrollPosition := 0;
      lastSelectedItemName := "";
    }

    /** Starts at the root with an empty history; fails only when the callback mutex cannot be created. */
    method Init(mutexCreated: bool) returns (ok: bool)
      requires Valid()
      modifies this
      ensures Valid()
      ensures old(initialized) ==> ok && unchanged(this)
      ensures !old(initialized) && !mutexCreated ==> !ok && unchanged(this)
      ensures !old(initialized) && mutexCreated ==>
        ok && initialized && currentPath == "/" && listing == old(listing).(selected := None, state := Idle) &&
        history == [] && scrollPosition == 0 && lastSelectedItemName == ""
    {
      if initialized {
        return true;
      }
      if !mutexCreated {
        return false;
      }
      currentPath := "/";
      listing := listing.(selected := None, state := Idle);
      scrollPosition := 0;
      lastSelectedItemName := "";
      history := [];
      initialized := true;
      ok := true;
    }

    /** The listing callback's `addItem`: rows without a name are ignored. */
    method AddItem(item: FileItem)
      modifies this
      ensures listing == if item.name == "" then old(listing) else old(listing).(items := old(listing).items + [item])
      ensures currentPath == old(currentPath) && history == old(history)
      ensures scrollPosition == old(scrollPosition) && lastSelectedItemName == old(lastSelectedItemName)
      ensures initialized == old(initialized)
    {
      if item.name == "" {
        return;
      }
      listing := listing.(items := listing.items + [item]);
    }

    method SaveCurrentState(fileListScroll: Option<int>)
      modifies this
      ensures (scrollPosition, lastSelectedItemName) ==
        SavedView(old(scrollPosition), old(lastSelectedItemName), listing.selected, fileListScroll)
      ensures currentPath == old(currentPath) && listing == old(listing) && history == old(history)
      ensures initialized == old(initialized)
    {
      if fileListScroll.None? {
        return;
      }
      scrollPosition := fileListScroll.value;
      lastSelectedItemName := listing.selected.GetOr("");
    }

    method PushNavigationState(path: string)
      requires Valid()
      modifies this
      ensures Valid()
      ensures history == HistoryPush(old(history), NavigationState(path, scrollPosition, lastSelectedItemName), maxHistorySize)
      ensures currentPath == old(currentPath) && listing == old(listing)
      ensures scrollPosition == old(scrollPosition) && lastSelectedItemName == old(lastSelectedItemName)
      ensures initialized == old(initialized)
    {
      var state := NavigationState(path, scrollPosition, lastSelectedItemName);
      history := history + [state];
      if |history| > maxHistorySize {
        history := history[1..];
      }
    }

    method PopNavigationState() returns (state: NavigationState)
      requires Valid()
      modifies this
      ensures Valid()
      ensures (state, history) == HistoryPop(old(history))
      ensures currentPath == old(currentPath) && listing == old(listing)
      ensures scrollPosition == old(scrollPosition) && lastSelectedItemName == old(lastSelectedItemName)
      ensures initialized == old(initialized)
    {
      if history == [] {
        return NO_STATE;
      }
      state := history[|history| - 1];
      history := history[..|history| - 1];
    }

    method ClearNavigationHistory()
      requires Valid()
      modifies this
      ensures Valid()
      ensures history == []
      ensures currentPath == old(currentPath) && listing == old(listing)
      ensures scrollPosition == old(scrollPosition) && lastSelectedItemName == old(lastSelectedItemName)
      ensures initialized == old(initialized)
    {
      history := [];
    }

    predicate CanNavigateBack()
      reads this
    {
      history != []
    }

    /** `loadDirectory`: the checks, then the card's entries through `addItem`, then the sort. */
    method LoadDirectory(path: string, sd: SdRead, store: LogoStore) returns (ok: bool)
      modifies this
      ensures ok <==> LoadSucceeds(path, sd)
      ensures listing == LoadResult(old(listing), path, old(currentPath), store, sd)
      ensures currentPath == old(currentPath) && history == old(history)
      ensures scrollPosition == old(scrollPosition) && lastSelectedItemName == old(lastSelectedItemName)
      ensures initialized == old(initialized)
    {
      if !sd.mounted || path == "" || |path| > MAX_PATH_LENGTH {
        return false;
      }
      if sd.freeHeap < MIN_LOAD_HEAP {
        listing := listing.(state := Failed);
        return false;
      }
      listing := Listing([], None, Loading);
      if !sd.directoryExists {
        listing := listing.(state := Failed);
        return false;
      }
      listing := listing.(items := Listed(path, currentPath, store, sd.entries));
      if sd.listed {
        listing := listing.(items := SortListing(listing.items), state := Idle);
        ok := true;
      } else {
        listing := listing.(state := Failed);
        ok := false;
      }
    }

    /**
     * `navigateToPath`: with a card present, the current location is saved
     * to the history when it is set and differs from the target, whether or
     * not the target then loads; a successful load moves there with the
     * scroll position and selection reset.
     */
    method NavigateToPath(path: string, sd: SdRead, store: LogoStore, fileListScroll: Option<int>) returns (ok: bool)
      requires Valid()
      modifies this
      ensures Valid()
      ensures ok <==> LoadSucceeds(path, sd)
      ensures !sd.mounted ==>
        listing == old(listing).(state := Failed) && currentPath == old(currentPath) && history == old(history) &&
        scrollPosition == old(scrollPosition) && lastSelectedItemName == old(lastSelectedItemName)
      ensures sd.mounted ==>
        var leaving := old(currentPath) != "" && old(currentPath) != path;
        var saved := if leaving then SavedView(old(scrollPosition), old(lastSelectedItemName), old(listing).selected, fileListScroll)
                     else (old(scrollPosition), old(lastSelectedItemName));
        history == (if leaving then HistoryPush(old(history), NavigationState(old(currentPath), saved.0, saved.1), maxHistorySize)
                    else old(history)) &&
        listing == LoadResult(old(listing), path, old(currentPath), store, sd) &&
        (ok ==> currentPath == path && scrollPosition == 0 && lastSelectedItemName == "") &&
        (!ok ==> currentPath == old(currentPath) && scrollPosition == saved.0 && lastSelectedItemName == saved.1)
      ensures initialized == old(initialized)
    {
      if !sd.mounted {
        listing := listing.(state := Failed);
        return false;
      }
      if currentPath != "" && currentPath != path {
        SaveCurrentState(fileListScroll);
        PushNavigationState(currentPath);
      }
      ok := LoadDirectory(path, sd, store);
      if ok {
        currentPath := path;
        listing := listing.(selected := None);
        scrollPosition := 0;
        lastSelectedItemName := "";
      }
    }

    /** `navigateUp`: refused at the root, otherwise a navigation to the parent. */
    method NavigateUp(sd: SdRead, store: LogoStore, fileListScroll: Option<int>) returns (ok: bool)
      requires Valid()
      modifies this
      ensures Valid()
      ensures old(currentPath) == "/" ==> !ok && unchanged(this)
      ensures old(currentPath) != "/" ==> (ok <==> LoadSucceeds(ParentPath(old(currentPath)), sd))
      ensures old(currentPath) != "/" && ok ==> currentPath == ParentPath(old(currentPath))
      ensures initialized == old(initialized)
    {
      if currentPath == "/" {
        return false;
      }
      ok := NavigateToPath(ParentPath(currentPath), sd, store, fileListScroll);
    }

    /** `navigateBack`: reload the newest saved location and restore its view. */
    method NavigateBack(sd: SdRead, store: LogoStore) returns (ok: bool)
      requires Valid()
      modifies this
      ensures Valid()
      ensures old(history) == [] ==> !ok && unchanged(this)
      ensures old(history) != [] ==>
        var (prev, rest) := HistoryPop(old(history));
        history == rest && listing == LoadResult(old(listing), prev.path, old(currentPath), store, sd) &&
        (ok <==> LoadSucceeds(prev.path, sd)) &&
        (ok ==> currentPath == prev.path && scrollPosition == prev.scrollPosition &&
                lastSelectedItemName == prev.selectedItemName) &&
        (!ok ==> currentPath == old(currentPath) && scrollPosition == old(scrollPosition) &&
                 lastSelectedItemName == old(lastSelectedItemName))
      ensures initialized == old(initialized)
    {
      if history == [] {
        return false;
      }
      var prev := PopNavigationState();
      ok := LoadDirectory(prev.path, sd, store);
      if ok {
        currentPath := prev.path;
        scrollPosition := prev.scrollPosition;
        lastSelectedItemName := prev.selectedItemName;
      }
    }
  }

  // ---------------------------------------------------------------------------
  // Logo files
  // ---------------------------------------------------------------------------

  /** A trailing `_v…` version suffix removed when it does not start the name. */
  function StripVersion(base: string): (r: string)
    ensures |r| <= |base| && r == base[..|r|]
    ensures LastIndexOf(base, "_v") <= 0 <==> r == base
    ensures r != base ==> 0 < |r| && OccursAt(base, "_v", |r|) && forall j :: |r| < j ==> !OccursAt(base, "_v", j)
  {
    var versionPos := LastIndexOf(base, "_v");
    if versionPos > 0 then base[..versionPos] else base
  }

  /**
   * The process name guessed from a logo file's own name: extension removed,
   * version suffix removed, ".exe" appended unless it already ends in ".exe"
   * or ".app".
   */
  function FallbackProcessName(filename: string): (r: string)
    requires IsLogoFileName(filename)
    ensures EndsWith(r, ".exe") || EndsWith(r, ".app")
    ensures var stem := StripVersion(filename[..|filename| - 4]);
      (r == stem <==> EndsWith(stem, ".exe") || EndsWith(stem, ".app")) &&
      (r != stem ==> r == stem + ".exe")
  {
    var stem := StripVersion(filename[..|filename| - 4]);
    if EndsWith(stem, ".exe") || EndsWith(stem, ".app") then stem
    else
      var r := stem + ".exe";
      assert r[|r| - 4..] == ".exe";
      r
  }

  /** A versioned PNG loses its version suffix. */
  lemma FallbackVersioned()
    ensures FallbackProcessName("chrome_v2.png") == "chrome.exe"
  {
    var base := "chrome_v2";
    assert "chrome_v2.png"[..9] == base;
    assert base[7] == 'v' && base[6..8] == "_v";
    assert LastIndexOf(base, "_v") == 6;
    assert base[..6] == "chrome";
  }

  /** A name that already carries its executable's extension keeps it. */
  lemma FallbackKeepsExtension()
    ensures FallbackProcessName("Spotify.exe.bin") == "Spotify.exe"
  {
    var base := "Spotify.exe";
    assert "Spotify.exe.bin"[..11] == base;
    assert !Contains(base, "_v") by {
      assert forall k :: 0 <= k < |base| ==> base[k] != '_';
      forall i | 0 <= i <= |base| ensures !OccursAt(base, "_v", i) {
        if i + 2 <= |base| {
          assert base[i..i + 2][0] == base[i];
        }
      }
    }
    assert base[7..] == ".exe";
  }

  /** A version marker at the very start is not a suffix. */
  lemma FallbackLeadingMarker()
    ensures FallbackProcessName("_v1.bin") == "_v1.exe"
  {
    var base := "_v1";
    assert "_v1.bin"[..3] == base;
    assert base[1] == 'v' && base[0..2] == "_v";
    assert LastIndexOf(base, "_v") == 0;
    assert !EndsWith(base, ".exe") && !EndsWith(base, ".app");
  }

  /**
   * `extractProcessNameFromLogoFile`: the first process (in the storage's
   * listing order) whose mapping names the file, otherwise the guess from the
   * file name; files that are not logos give "".  `mappings` lists the pairs
   * (process name, mapped file).
   */
  method ExtractProcessName(filename: string, mappings: seq<(string, string)>) returns (r: string)
    ensures r == ProcessNameOf(filename, mappings)
    ensures !IsLogoFileName(filename) ==> r == ""
    ensures IsLogoFileName(filename) && (exists i :: 0 <= i < |mappings| && mappings[i].1 == filename) ==>
      exists i :: 0 <= i < |mappings| && mappings[i] == (r, filename) &&
        forall j :: 0 <= j < i ==> mappings[j].1 != filename
    ensures IsLogoFileName(filename) && (forall i :: 0 <= i < |mappings| ==> mappings[i].1 != filename) ==>
      r == FallbackProcessName(filename)
  {
    if !IsLogoFileName(filename) {
      return "";
    }
    var i := 0;
    while i < |mappings|
      invariant i <= |mappings|
      invariant forall j :: 0 <= j < i ==> mappings[j].1 != filename
      invariant MappedProcess(filename, mappings) == MappedProcess(filename, mappings[i..])
    {
      assert mappings[i..][1..] == mappings[i + 1..];
      if mappings[i].1 == filename {
        return mappings[i].0;
      }
      i := i + 1;
    }
    r := FallbackProcessName(filename);
  }

  /** The verified/flagged marks of a logo with metadata. */
  function FlagsText(verified: bool, flagged: bool): (r: string)
    ensures r == "" <==> !verified && !flagged
    ensures r != "" ==> StartsWith(r, " [") && EndsWith(r, "]")
  {
    if verified && flagged then " [V,F]"
    else if verified then " [V]"
    else if flagged then " [F]"
    else ""
  }

  /** Each mark shows exactly when its flag is set. */
  lemma FlagsTextMarks(verified: bool, flagged: bool)
    ensures 'V' in FlagsText(verified, flagged) <==> verified
    ensures 'F' in FlagsText(verified, flagged) <==> flagged
  {
    var r := FlagsText(verified, flagged);
    if verified && flagged {
      assert r[2] == 'V' && r[4] == 'F';
    } else if verified {
      assert r[2] == 'V';
    } else if flagged {
      assert r[2] == 'F';
    }
  }

  /** The list row's label: the name, the size for files, the marks for logos with metadata. */
  function LogoDisplayText(item: FileItem): (r: string)
    ensures StartsWith(r, item.name)
    ensures r == item.name <==> item.isDirectory && !item.isLogoFile
    ensures r != item.name ==>
      var size := " (" + item.sizeString + ")";
      StartsWith(r[|item.name|..], size) &&
      r[|item.name| + |size|..] ==
        (if item.isLogoFile && item.hasLogoMetadata then FlagsText(item.logoVerified, item.logoFlagged) else "")
  {
    var size := " (" + item.sizeString + ")";
    var r := if item.isLogoFile then
      item.name + size + (if item.hasLogoMetadata then FlagsText(item.logoVerified, item.logoFlagged) else "")
    else if !item.isDirectory then item.name + size
    else item.name;
    assert r[..|item.name|] == item.name;
    r
  }

  /** The LVGL symbol shown beside a row. */
  datatype Icon = DirectoryIcon | OkIcon | WarningIcon | ImageIcon | FileIcon

  function LogoIcon(item: FileItem): (r: Icon)
    ensures r == DirectoryIcon <==> item.isDirectory
    ensures r == OkIcon <==> !item.isDirectory && item.isLogoFile && item.logoVerified
    ensures r == WarningIcon <==> !item.isDirectory && item.isLogoFile && !item.logoVerified && item.logoFlagged
    ensures r == ImageIcon <==>
      !item.isDirectory && item.isLogoFile && !item.logoVerified && !item.logoFlagged && EndsWith(item.name, ".png")
  {
    if item.isDirectory then DirectoryIcon
    else if item.isLogoFile then
      if item.logoVerified then OkIcon
      else if item.logoFlagged then WarningIcon
      else if EndsWith(item.name, ".png") then ImageIcon
      else FileIcon
    else FileIcon
  }
}
