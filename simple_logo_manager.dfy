/**
 * The simple logo manager: logos are PNG files under `/logos` on the SD
 * card, named after a sanitised process name; missing ones are requested
 * over the message bus and tracked by request id until they arrive or time
 * out.  The manager also lists the logos on the card, sorted, for a paged
 * picker.
 *
 * The card, the clock and the message bus are parameters: what a read or a
 * directory listing returns is passed in, and the asset requests put on the
 * bus and the callbacks invoked are recorded as sequences.
 */
module SimpleLogos {
  import opened Wrappers
  import opened Bits
  import opened Text
  import opened StringOrder
  import LogoSupplier

  const LOGOS_DIR: string := "/logos"
  /** LVGL's drive letter for the SD card. */
  const LVGL_DRIVE: string := "S:"
  const UNKNOWN_NAME: string := "unknown"
  /** The largest logo file requestLogo serves from the card. */
  const MAX_STORED_LOGO_SIZE: nat := 100000

  const NOT_INITIALIZED := "Not initialized"
  const TIMED_OUT := "Request timed out"
  const SHUTTING_DOWN := "System shutting down"

  // ---------------------------------------------------------------------------
  // Process names and paths
  // ---------------------------------------------------------------------------

  /** The characters sanitizeProcessName replaces by '_' (white space is trimmed instead). */
  predicate IsReserved(c: char)
  {
    c == '/' || c == '\\' || c == ':' || c == '*' || c == '?' || c == '"' ||
    c == '<' || c == '>' || c == '|'
  }

  /** Every reserved character replaced by '_', everything else kept. */
  function Unreserved(s: string): (r: string)
    ensures |r| == |s|
    ensures forall i :: 0 <= i < |s| ==> r[i] == if IsReserved(s[i]) then '_' else s[i]
  {
    seq(|s|, i requires 0 <= i < |s| => if IsReserved(s[i]) then '_' else s[i])
  }

  /** No reserved character, and no white space at either end. */
  predicate IsCleanName(s: string)
  {
    (forall i :: 0 <= i < |s| ==> !IsReserved(s[i])) &&
    (s == [] || (!IsSpace(s[0]) && !IsSpace(s[|s| - 1])))
  }

  /** Trimming a string without white space at its ends leaves it alone. */
  lemma TrimClean(s: string)
    requires s == [] || (!IsSpace(s[0]) && !IsSpace(s[|s| - 1]))
    ensures Trim(s) == s
  {
  }

  /** Trimming keeps a contiguous part of the string, with no white space at its ends. */
  lemma TrimPart(s: string) returns (i: nat)
    ensures OccursAt(s, Trim(s), i)
    ensures Trim(s) == [] || (!IsSpace(Trim(s)[0]) && !IsSpace(Trim(s)[|Trim(s)| - 1]))
  {
    var a := TrimStart(s);
    var b := TrimEnd(a);
    i := |s| - |a|;
    assert b == a[..|b|];
    assert b == s[i..i + |b|];
  }

  /**
   * sanitizeProcessName: reserved characters become '_', white space is
   * trimmed from both ends, and an empty result becomes "unknown".  Letters
   * keep their case.
   */
  function SanitizeProcessName(processName: string): (r: string)
    ensures r != []
  {
    var trimmed := Trim(Unreserved(processName));
    if trimmed == [] then UNKNOWN_NAME else trimmed
  }

  /**
   * A sanitised name has no reserved character and no white space at its
   * ends, and is "unknown" or a part of the name with its reserved
   * characters replaced.
   */
  lemma SanitizedIsClean(processName: string)
    ensures IsCleanName(SanitizeProcessName(processName))
    ensures SanitizeProcessName(processName) == UNKNOWN_NAME ||
      Contains(Unreserved(processName), SanitizeProcessName(processName))
  {
    var replaced := Unreserved(processName);
    var trimmed := Trim(replaced);
    var r := SanitizeProcessName(processName);
    if trimmed == [] {
      assert r == UNKNOWN_NAME;
      UnknownIsClean();
    } else {
      assert r == trimmed;
      UnreservedHasNone(processName);
      TrimmedClean(replaced);
    }
  }

  /** Trimming a string without reserved characters gives a clean part of it. */
  lemma TrimmedClean(s: string)
    requires forall k :: 0 <= k < |s| ==> !IsReserved(s[k])
    ensures IsCleanName(Trim(s)) && Contains(s, Trim(s))
  {
    var trimmed := Trim(s);
    var i := TrimPart(s);
    forall k | 0 <= k < |trimmed| ensures !IsReserved(trimmed[k]) {
      assert trimmed[k] == s[i + k];
    }
  }

  lemma UnreservedHasNone(s: string)
    ensures forall k :: 0 <= k < |s| ==> !IsReserved(Unreserved(s)[k])
  {
  }

  lemma UnknownIsClean()
    ensures IsCleanName(UNKNOWN_NAME)
  {
  }

  /** A name that is already clean is kept as it is: case included. */
  lemma SanitizeKeepsCleanNames(processName: string)
    requires IsCleanName(processName) && processName != []
    ensures SanitizeProcessName(processName) == processName
  {
    assert Unreserved(processName) == processName;
    TrimClean(processName);
  }

  /** Sanitising a sanitised name changes nothing. */
  lemma SanitizeIdempotent(processName: string)
    ensures SanitizeProcessName(SanitizeProcessName(processName)) == SanitizeProcessName(processName)
  {
    SanitizedIsClean(processName);
    SanitizeKeepsCleanNames(SanitizeProcessName(processName));
  }

  /** Unlike the binary store's file names, process names keep their case. */
  lemma SanitizeKeepsCase(name: string)
    requires name == "Chrome.exe"
    ensures SanitizeProcessName(name) == name
  {
    assert IsCleanName(name);
    SanitizeKeepsCleanNames(name);
  }

  /** Reserved characters inside become '_', white space around goes. */
  lemma SanitizeTrimsAndReplaces(name: string)
    requires name == "  a/b  "
    ensures SanitizeProcessName(name) == "a_b"
  {
    UnreservedExample(name);
    TrimExample("  a_b  ");
  }

  lemma UnreservedExample(name: string)
    requires name == "  a/b  "
    ensures Unreserved(name) == "  a_b  "
  {
  }

  lemma TrimExample(s: string)
    requires s == "  a_b  "
    ensures Trim(s) == "a_b"
  {
    var t := s[2..];
    assert IsSpace(s[0]) && s[1..][0] == ' ' && s[1..][1..] == t && !IsSpace(t[0]);
    assert TrimStart(s) == t;
    var u := t[..|t| - 1];
    var v := u[..|u| - 1];
    assert v == "a_b" && !IsSpace(v[|v| - 1]);
    assert IsSpace(t[|t| - 1]) && TrimEnd(t) == TrimEnd(u);
    assert IsSpace(u[|u| - 1]) && TrimEnd(u) == TrimEnd(v);
    assert TrimEnd(v) == v;
  }

  /** getLogoPath: the PNG file of an already sanitised name. */
  function LogoPath(sanitized: string): (r: string)
    ensures |r| == |LOGOS_DIR + "/"| + |sanitized| + 4
    ensures StartsWith(r, LOGOS_DIR + "/") && EndsWith(r, ".png")
    ensures r[|LOGOS_DIR + "/"|..|r| - 4] == sanitized
  {
    var r := LOGOS_DIR + "/" + sanitized + ".png";
    assert r[..|LOGOS_DIR + "/"|] == LOGOS_DIR + "/" && r[|r| - 4..] == ".png";
    assert r[|LOGOS_DIR + "/"|..|r| - 4] == sanitized;
    r
  }

  /** getLVGLPath: the logo file of a process, on LVGL's drive. */
  function LVGLPath(processName: string): (r: string)
    ensures StartsWith(r, LVGL_DRIVE) && r[|LVGL_DRIVE|..] == LogoPath(SanitizeProcessName(processName))
  {
    var r := LVGL_DRIVE + LogoPath(SanitizeProcessName(processName));
    assert r[..|LVGL_DRIVE|] == LVGL_DRIVE && r[|LVGL_DRIVE|..] == LogoPath(SanitizeProcessName(processName));
    r
  }

  /**
   * getLogoLVGLPath: an absolute path gets LVGL's drive letter; anything
   * else is taken as already converted and returned unchanged.
   */
  function LogoLVGLPath(logoPath: string): (r: string)
    ensures StartsWith(logoPath, "/") <==> r != logoPath
    ensures r != logoPath ==> r == LVGL_DRIVE + logoPath
  {
    if StartsWith(logoPath, "/") then
      assert |LVGL_DRIVE + logoPath| != |logoPath|;
      LVGL_DRIVE + logoPath
    else logoPath
  }

  /** Converting twice is converting once. */
  lemma LogoLVGLPathIdempotent(logoPath: string)
    ensures LogoLVGLPath(LogoLVGLPath(logoPath)) == LogoLVGLPath(logoPath)
  {
    var r := LogoLVGLPath(logoPath);
    if r != logoPath {
      assert r[0] == 'S';
    }
  }

  /** Converting a listed logo path gives what getLVGLPath gives for its process. */
  lemma LVGLPathsAgree(processName: string)
    ensures LogoLVGLPath(LogoPath(SanitizeProcessName(processName))) == LVGLPath(processName)
  {
    var path := LogoPath(SanitizeProcessName(processName));
    assert StartsWith(path, "/") by {
      assert path[..1] == (LOGOS_DIR + "/")[..1];
    }
  }

  // ---------------------------------------------------------------------------
  // Listing and paging
  // ---------------------------------------------------------------------------

  /** A directory entry as the card's listing reports it. */
  datatype DirEntry = DirEntry(name: string, isDirectory: bool)

  /**
   * scanLogosOnce's filter as written: files ending in ".png", ".c" or
   * "bin" — the last without its dot.
   */
  predicate ListedAsWritten(e: DirEntry)
  {
    !e.isDirectory && (EndsWith(e.name, ".png") || EndsWith(e.name, ".c") || EndsWith(e.name, "bin"))
  }

  /** The filter with the dot the other extensions have. */
  predicate IsLogoEntry(e: DirEntry)
  {
    !e.isDirectory && (EndsWith(e.name, ".png") || EndsWith(e.name, ".c") || EndsWith(e.name, ".bin"))
  }

  /** "robin" has no extension, yet the scan lists it as a logo. */
  lemma DotlessBinListed()
    ensures ListedAsWritten(DirEntry("robin", false))
    ensures !IsLogoEntry(DirEntry("robin", false))
  {
    assert "robin"[2..] == "bin";
    assert "robin"[1..] != ".bin";
  }

  /** The filter with the dot lists only what the filter as written lists. */
  lemma LogoEntriesListed(e: DirEntry)
    ensures IsLogoEntry(e) ==> ListedAsWritten(e)
  {
    if !e.isDirectory && EndsWith(e.name, ".bin") {
      assert e.name[|e.name| - 3..] == e.name[|e.name| - 4..][1..];
    }
  }

  /** Names in a directory listing are distinct. */
  predicate DistinctNames(entries: seq<DirEntry>)
  {
    forall i, j :: 0 <= i < j < |entries| ==> entries[i].name != entries[j].name
  }

  /** The full paths of the files of a listing that scanLogosOnce collects, as written. */
  function LogoPaths(entries: seq<DirEntry>): (r: set<string>)
    ensures forall p :: p in r <==>
      exists i :: 0 <= i < |entries| && ListedAsWritten(entries[i]) && p == LOGOS_DIR + "/" + entries[i].name
  {
    set i | 0 <= i < |entries| && ListedAsWritten(entries[i]) :: LOGOS_DIR + "/" + entries[i].name
  }

  /** The full paths the scan would collect with the dotted ".bin" filter. */
  function CorrectedLogoPaths(entries: seq<DirEntry>): (r: set<string>)
    ensures forall p :: p in r <==>
      exists i :: 0 <= i < |entries| && IsLogoEntry(entries[i]) && p == LOGOS_DIR + "/" + entries[i].name
  {
    set i | 0 <= i < |entries| && IsLogoEntry(entries[i]) :: LOGOS_DIR + "/" + entries[i].name
  }

  /** The corrected scan collects a subset of what the scan as written collects. */
  lemma CorrectedLogoPathsWithin(entries: seq<DirEntry>)
    ensures CorrectedLogoPaths(entries) <= LogoPaths(entries)
  {
    forall p | p in CorrectedLogoPaths(entries) ensures p in LogoPaths(entries) {
      var i :| 0 <= i < |entries| && IsLogoEntry(entries[i]) && p == LOGOS_DIR + "/" + entries[i].name;
      LogoEntriesListed(entries[i]);
    }
  }

  /** A card holding only "robin": the scan as written caches it, the corrected scan does not. */
  lemma RobinCached(entries: seq<DirEntry>)
    requires entries == [DirEntry("robin", false)]
    ensures LogoPaths(entries) == {"/logos/robin"}
    ensures CorrectedLogoPaths(entries) == {}
  {
    DotlessBinListed();
    assert entries[0] == DirEntry("robin", false);
    assert LOGOS_DIR + "/" + "robin" == "/logos/robin";
  }

  lemma LogoPathsSnoc(entries: seq<DirEntry>, e: DirEntry)
    ensures LogoPaths(entries + [e]) == LogoPaths(entries) + (if ListedAsWritten(e) then {LOGOS_DIR + "/" + e.name} else {})
  {
    var all := entries + [e];
    assert all[|entries|] == e;
    forall p | p in LogoPaths(entries) ensures p in LogoPaths(all) {
      var i :| 0 <= i < |entries| && ListedAsWritten(entries[i]) && p == LOGOS_DIR + "/" + entries[i].name;
      assert all[i] == entries[i];
    }
    forall p | p in LogoPaths(all)
      ensures p in LogoPaths(entries) || (ListedAsWritten(e) && p == LOGOS_DIR + "/" + e.name)
    {
      var i :| 0 <= i < |all| && ListedAsWritten(all[i]) && p == LOGOS_DIR + "/" + all[i].name;
      if i < |entries| {
        assert all[i] == entries[i];
      }
    }
  }

  /**
   * The list scanLogosOnce caches: the logo files' full paths, sorted as
   * `std::sort` sorts Arduino Strings.  Names in a listing are distinct, so
   * sorting the collected paths is listing their set in order.
   */
  method CollectLogoPaths(entries: seq<DirEntry>) returns (paths: seq<string>)
    requires DistinctNames(entries)
    ensures InMapOrder(paths, LogoPaths(entries))
    ensures paths == Sorted(LogoPaths(entries))
  {
    var found: set<string> := {};
    var i := 0;
    while i < |entries|
      invariant i <= |entries|
      invariant found == LogoPaths(entries[..i])
    {
      LogoPathsSnoc(entries[..i], entries[i]);
      assert entries[..i + 1] == entries[..i] + [entries[i]];
      if ListedAsWritten(entries[i]) {
        found := found + {LOGOS_DIR + "/" + entries[i].name};
      }
      i := i + 1;
    }
    assert entries[..|entries|] == entries;
    paths := MapOrder(found);
  }

  /**
   * The page getPagedLogos returns: indices `start` up to
   * `min(start + perPage, |paths|)`, nothing when that range is empty.
   */
  function PageOf(paths: seq<string>, start: int, perPage: int): (r: seq<string>)
    requires start >= 0 || perPage <= 0
    ensures perPage > 0 && start < |paths| ==>
      r == paths[start..if start + perPage < |paths| then start + perPage else |paths|]
    ensures perPage <= 0 || start >= |paths| ==> r == []
    ensures |r| <= if perPage > 0 then perPage else 0
  {
    var end := if start + perPage < |paths| then start + perPage else |paths|;
    if start < end then paths[start..end] else []
  }

  /**
   * getPagedLogos over the cached list: the loop from `startIdx` to
   * `endIdx`.  A negative start with a positive page size would index
   * before the list, so callers may not ask for one.
   */
  method PagedLogos(paths: seq<string>, pageIndex: int, itemsPerPage: int) returns (page: seq<string>)
    requires pageIndex * itemsPerPage >= 0 || itemsPerPage <= 0
    ensures page == PageOf(paths, pageIndex * itemsPerPage, itemsPerPage)
  {
    page := [];
    var startIdx := pageIndex * itemsPerPage;
    var endIdx := if startIdx + itemsPerPage < |paths| then startIdx + itemsPerPage else |paths|;
    var i := startIdx;
    while i < endIdx
      invariant startIdx < endIdx ==> startIdx <= i <= endIdx && page == paths[startIdx..i]
      invariant startIdx >= endIdx ==> page == []
      decreases endIdx - i
    {
      page := page + [paths[i]];
      i := i + 1;
    }
  }

  /** The first `pages` pages, one after another. */
  function FirstPages(paths: seq<string>, pages: nat, perPage: nat): seq<string>
  {
    if pages == 0 then [] else FirstPages(paths, pages - 1, perPage) + PageOf(paths, (pages - 1) * perPage, perPage)
  }

  /** Paging through the list from page 0 visits every logo once, in order. */
  lemma {:induction false} PagesTile(paths: seq<string>, pages: nat, perPage: nat)
    requires perPage > 0
    ensures FirstPages(paths, pages, perPage) == paths[..if pages * perPage < |paths| then pages * perPage else |paths|]
  {
    if pages > 0 {
      PagesTile(paths, pages - 1, perPage);
      var s := (pages - 1) * perPage;
      assert pages * perPage == s + perPage;
      if s < |paths| {
        var e := if s + perPage < |paths| then s + perPage else |paths|;
        assert paths[..s] + paths[s..e] == paths[..e];
      }
    }
  }

  // ---------------------------------------------------------------------------
  // Requests in flight
  // ---------------------------------------------------------------------------

  /** A tracked request; `callback` names the caller's callback, if any. */
  datatype LogoRequest = LogoRequest(processName: string, requestId: string, callback: Option<nat>, requestTime: uint32)

  /** One callback invocation: success, the logo's bytes, the error text. */
  datatype Notice = Notice(callback: nat, success: bool, data: seq<byte>, error: string)

  /** An asset request put on the message bus. */
  datatype AssetRequest = AssetRequest(requestId: string, processName: string)

  /** A request update() fails: more than the timeout since it was made. */
  predicate Overdue(r: LogoRequest, now: uint32, timeout: nat)
  {
    LogoSupplier.Elapsed(now, r.requestTime) > timeout
  }

  /** The failure a request's callback gets, if it has one. */
  function FailureOf(r: LogoRequest, error: string): (n: seq<Notice>)
    ensures |n| == if r.callback.Some? then 1 else 0
    ensures forall i :: 0 <= i < |n| ==> n[i] == Notice(r.callback.value, false, [], error)
  {
    if r.callback.Some? then [Notice(r.callback.value, false, [], error)] else []
  }

  /** The failures of the listed requests, in list order; requests without a callback are silent. */
  function Failures(m: map<string, LogoRequest>, ids: seq<string>, error: string): (r: seq<Notice>)
    requires forall i :: 0 <= i < |ids| ==> ids[i] in m
    ensures |r| <= |ids|
  {
    if ids == [] then []
    else Failures(m, ids[..|ids| - 1], error) + FailureOf(m[ids[|ids| - 1]], error)
  }

  /**
   * Every failure is an unsuccessful notice with no data and the given error,
   * and there is one per request when every request has a callback.
   */
  lemma {:induction false} FailuresShape(m: map<string, LogoRequest>, ids: seq<string>, error: string)
    requires forall i :: 0 <= i < |ids| ==> ids[i] in m
    ensures var r := Failures(m, ids, error);
      (forall i :: 0 <= i < |r| ==> !r[i].success && r[i].data == [] && r[i].error == error) &&
      ((forall i :: 0 <= i < |ids| ==> m[ids[i]].callback.Some?) ==> |r| == |ids|)
    decreases |ids|
  {
    if ids != [] {
      var init := ids[..|ids| - 1];
      FailuresShape(m, init, error);
      var r := Failures(m, ids, error);
      var a := Failures(m, init, error);
      var b := FailureOf(m[ids[|ids| - 1]], error);
      assert r == a + b;
      forall i | 0 <= i < |r| ensures !r[i].success && r[i].data == [] && r[i].error == error {
        if i < |a| {
          assert r[i] == a[i];
        } else {
          assert r[i] == b[i - |a|];
        }
      }
    }
  }

  /** Among the first `n` keys, those whose requests are overdue, in key order. */
  function OverduePrefix(m: map<string, LogoRequest>, keys: seq<string>, n: nat, now: uint32, timeout: nat): (r: seq<string>)
    requires n <= |keys|
    ensures forall x :: x in r ==> x in m && Overdue(m[x], now, timeout)
    ensures forall j :: 0 <= j < n && keys[j] in m && Overdue(m[keys[j]], now, timeout) ==> keys[j] in r
    ensures forall x :: x in r ==> x in keys[..n]
    ensures |r| <= n
  {
    if n == 0 then []
    else
      var k := keys[n - 1];
      assert keys[..n] == keys[..n - 1] + [k];
      OverduePrefix(m, keys, n - 1, now, timeout) + (if k in m && Overdue(m[k], now, timeout) then [k] else [])
  }

  /** A prefix filter of distinct keys lists none twice. */
  lemma {:induction false} OverduePrefixDistinct(m: map<string, LogoRequest>, keys: seq<string>, n: nat, now: uint32, timeout: nat)
    requires n <= |keys| && Distinct(keys)
    ensures Distinct(OverduePrefix(m, keys, n, now, timeout))
  {
    if n > 0 {
      OverduePrefixDistinct(m, keys, n - 1, now, timeout);
      var init := OverduePrefix(m, keys, n - 1, now, timeout);
      assert keys[n - 1] !in keys[..n - 1];
      assert keys[n - 1] !in init;
    }
  }

  /** The ids update() times out: the overdue requests, in map order. */
  ghost function OverdueIds(m: map<string, LogoRequest>, now: uint32, timeout: nat): (r: seq<string>)
    ensures forall x {:trigger x in r} :: x in r <==> x in m && Overdue(m[x], now, timeout)
  {
    var keys := Sorted(m.Keys);
    OverduePrefix(m, keys, |keys|, now, timeout)
  }

  /** The requests still in flight after the timeout pass. */
  function NotOverdue(m: map<string, LogoRequest>, now: uint32, timeout: nat): (r: map<string, LogoRequest>)
    ensures forall k {:trigger k in r} :: k in r <==> k in m && !Overdue(m[k], now, timeout)
    ensures forall k :: k in r ==> r[k] == m[k]
  {
    map k | k in m && !Overdue(m[k], now, timeout) :: m[k]
  }

  /** After the timeout pass nothing left in flight is overdue, and a second pass finds nothing. */
  lemma TimeoutPassSettles(m: map<string, LogoRequest>, now: uint32, timeout: nat)
    ensures OverdueIds(NotOverdue(m, now, timeout), now, timeout) == []
    ensures NotOverdue(NotOverdue(m, now, timeout), now, timeout) == NotOverdue(m, now, timeout)
  {
    FirstListed(OverdueIds(NotOverdue(m, now, timeout), now, timeout));
  }

  lemma FirstListed(s: seq<string>)
    ensures s == [] || s[0] in s
  {
  }

  /** Every overdue request leaves the tracker; requests within the timeout stay, unchanged. */
  lemma TimeoutPassPartitions(m: map<string, LogoRequest>, now: uint32, timeout: nat)
    ensures |OverdueIds(m, now, timeout)| + |NotOverdue(m, now, timeout)| == |m|
  {
    var keys := Sorted(m.Keys);
    SortedDistinct(m.Keys);
    OverduePrefixDistinct(m, keys, |keys|, now, timeout);
    var ids := OverdueIds(m, now, timeout);
    DistinctCard(ids);
    var late := set k | k in m && Overdue(m[k], now, timeout);
    var onTime := NotOverdue(m, now, timeout).Keys;
    ListedSet(ids, late);
    SplitKeys(m, late, onTime, now, timeout);
  }

  /** The members of a listing form the set it lists. */
  lemma ListedSet(ids: seq<string>, s: set<string>)
    requires forall x {:trigger x in ids} :: x in ids <==> x in s
    ensures (set i | 0 <= i < |ids| :: ids[i]) == s
  {
    var t := set i | 0 <= i < |ids| :: ids[i];
    forall x | x in s ensures x in t {
      assert x in ids;
      var i :| 0 <= i < |ids| && ids[i] == x;
    }
    forall x | x in t ensures x in s {
      var i :| 0 <= i < |ids| && ids[i] == x;
      assert ids[i] in ids;
    }
  }

  /** The keys split into the overdue and the rest. */
  lemma SplitKeys(m: map<string, LogoRequest>, late: set<string>, onTime: set<string>, now: uint32, timeout: nat)
    requires late == set k | k in m && Overdue(m[k], now, timeout)
    requires onTime == set k | k in m && !Overdue(m[k], now, timeout)
    ensures |late| + |onTime| == |m|
  {
    assert m.Keys == late + onTime;
    assert late * onTime == {};
  }

  lemma {:induction false} DistinctCard(s: seq<string>)
    requires Distinct(s)
    ensures |set i | 0 <= i < |s| :: s[i]| == |s|
  {
    if s != [] {
      var t := s[..|s| - 1];
      DistinctCard(t);
      assert (set i | 0 <= i < |s| :: s[i]) == (set i | 0 <= i < |t| :: t[i]) + {s[|s| - 1]};
      assert s[|s| - 1] !in (set i | 0 <= i < |t| :: t[i]);
    }
  }

  /** The first pass of update(): collect the overdue ids in map order. */
  method CollectOverdue(m: map<string, LogoRequest>, keys: seq<string>, now: uint32, timeout: nat)
    returns (ids: seq<string>)
    ensures ids == OverduePrefix(m, keys, |keys|, now, timeout)
  {
    ids := [];
    var i := 0;
    while i < |keys|
      invariant i <= |keys|
      invariant ids == OverduePrefix(m, keys, i, now, timeout)
    {
      var id := keys[i];
      if id in m && Overdue(m[id], now, timeout) {
        ids := ids + [id];
      }
      i := i + 1;
    }
  }

  /**
   * The second pass of update(): each listed request found in the tracker
   * gets its failure callback, is erased and counted.
   */
  method FailOverdue(m: map<string, LogoRequest>, ids: seq<string>, error: string)
    returns (rest: map<string, LogoRequest>, out: seq<Notice>, count: nat)
    requires Distinct(ids)
    requires forall i :: 0 <= i < |ids| ==> ids[i] in m
    ensures forall k :: k in rest <==> k in m && k !in ids
    ensures forall k :: k in rest ==> rest[k] == m[k]
    ensures out == Failures(m, ids, error)
    ensures count == |ids|
  {
    rest := m;
    out := [];
    count := 0;
    var i := 0;
    while i < |ids|
      invariant Failing(m, ids, i, error, rest, out, count)
      decreases |ids| - i
    {
      rest, out, count := FailOne(m, ids, i, error, rest, out, count);
      i := i + 1;
    }
    assert ids[..|ids|] == ids;
  }

  /** The state of the second pass after the first `i` ids. */
  ghost predicate Failing(m: map<string, LogoRequest>, ids: seq<string>, i: nat, error: string,
                          rest: map<string, LogoRequest>, out: seq<Notice>, count: nat)
    requires forall j :: 0 <= j < |ids| ==> ids[j] in m
  {
    i <= |ids| &&
    (forall k :: k in rest <==> k in m && k !in ids[..i]) &&
    (forall k :: k in rest ==> rest[k] == m[k]) &&
    out == Failures(m, ids[..i], error) && count == i
  }

  /** One step of the second pass: fail, erase and count the `i`-th id. */
  method FailOne(m: map<string, LogoRequest>, ids: seq<string>, i: nat, error: string,
                 rest: map<string, LogoRequest>, out: seq<Notice>, count: nat)
    returns (rest': map<string, LogoRequest>, out': seq<Notice>, count': nat)
    requires Distinct(ids) && i < |ids|
    requires forall j :: 0 <= j < |ids| ==> ids[j] in m
    requires Failing(m, ids, i, error, rest, out, count)
    ensures Failing(m, ids, i + 1, error, rest', out', count')
  {
    var id := ids[i];
    FailureStep(m, ids, i, error);
    out' := out + FailureOf(rest[id], error);
    rest' := rest - {id};
    count' := count + 1;
  }

  lemma FailureStep(m: map<string, LogoRequest>, ids: seq<string>, i: nat, error: string)
    requires Distinct(ids) && i < |ids|
    requires forall j :: 0 <= j < |ids| ==> ids[j] in m
    ensures ids[i] !in ids[..i]
    ensures forall k :: k !in ids[..i + 1] <==> k !in ids[..i] && k != ids[i]
    ensures Failures(m, ids[..i + 1], error) == Failures(m, ids[..i], error) + FailureOf(m[ids[i]], error)
  {
    assert ids[..i + 1] == ids[..i] + [ids[i]];
    assert ids[..i + 1][..i] == ids[..i];
  }

  /** Both passes of update() over the tracker `m`. */
  method ExpireOverdue(m: map<string, LogoRequest>, now: uint32, timeout: nat)
    returns (rest: map<string, LogoRequest>, out: seq<Notice>, count: nat)
    ensures rest == NotOverdue(m, now, timeout)
    ensures out == Failures(m, OverdueIds(m, now, timeout), TIMED_OUT)
    ensures count == |OverdueIds(m, now, timeout)|
  {
    var keys := MapOrder(m.Keys);
    SortedDistinct(m.Keys);
    var ids := CollectOverdue(m, keys, now, timeout);
    OverduePrefixDistinct(m, keys, |keys|, now, timeout);
    rest, out, count := FailOverdue(m, ids, TIMED_OUT);
    RemainderNotOverdue(m, rest, ids, now, timeout);
  }

  /** Removing exactly the overdue ids leaves the requests within the timeout. */
  lemma RemainderNotOverdue(m: map<string, LogoRequest>, rest: map<string, LogoRequest>, ids: seq<string>,
                            now: uint32, timeout: nat)
    requires ids == OverdueIds(m, now, timeout)
    requires forall k :: k in rest <==> k in m && k !in ids
    requires forall k :: k in rest ==> rest[k] == m[k]
    ensures rest == NotOverdue(m, now, timeout)
  {
    var w := NotOverdue(m, now, timeout);
    assert forall k :: k in rest <==> k in w;
  }

  /** Every request in flight, failed in map order. */
  method FailAllPending(m: map<string, LogoRequest>, error: string) returns (out: seq<Notice>)
    ensures out == Failures(m, Sorted(m.Keys), error)
  {
    var keys := MapOrder(m.Keys);
    SortedDistinct(m.Keys);
    var rest, count;
    rest, out, count := FailOverdue(m, keys, error);
  }

  /** The counters getStatus reports that this model maintains. */
  datatype Stats = Stats(requestsSubmitted: nat, requestsTimedOut: nat)

  /** What the card offers for a logo file: its bytes, and whether memory and the read worked. */
  datatype StoredLogo = StoredLogo(content: seq<byte>, readSucceeds: bool)

  /** requestLogo serves the logo from the card. */
  predicate ServedFromCard(stored: Option<StoredLogo>)
  {
    stored.Some? && 0 < |stored.value.content| <= MAX_STORED_LOGO_SIZE && stored.value.readSucceeds
  }

  class SimpleLogoManager {
    /** REQUEST_TIMEOUT_MS and CACHE_TIMEOUT_MS. */
    const requestTimeoutMs: nat
    const cacheTimeoutMs: nat

    var initialized: bool
    /** requestId -> request, for the requests in flight. */
    var pending: map<string, LogoRequest>
    var stats: Stats
    /** Every callback invocation so far, in call order. */
    var notices: seq<Notice>
    /** Every asset request put on the message bus, in order. */
    var sent: seq<AssetRequest>
    var cachedLogoPaths: seq<string>
    var logoListCached: bool
    var lastScanTime: uint32

    /** Each request is tracked under its own id. */
    predicate Valid()
      reads this
    {
      forall k :: k in pending ==> pending[k].requestId == k
    }

    constructor(requestTimeoutMs: nat, cacheTimeoutMs: nat)
      ensures this.requestTimeoutMs == requestTimeoutMs && this.cacheTimeoutMs == cacheTimeoutMs
      ensures !initialized && pending == map[] && stats == Stats(0, 0) && notices == [] && sent == []
      ensures cachedLogoPaths == [] && !logoListCached && lastScanTime == 0
      ensures Valid()
    {
      this.requestTimeoutMs := requestTimeoutMs;
      this.cacheTimeoutMs := cacheTimeoutMs;
      initialized := false;
      pending := map[];
      stats := Stats(0, 0);
      notices := [];
      sent := [];
      cachedLogoPaths := [];
      logoListCached := false;
      lastScanTime := 0;
    }

    /**
     * init: needs the card mounted and the logos directory in place (a
     * missing card ends in the fatal error screen, modelled as a failed
     * init); then the manager is ready.
     */
    method Init(sdMounted: bool, directoryReady: bool) returns (ok: bool)
      modifies this
      ensures ok <==> sdMounted && directoryReady
      ensures initialized == (old(initialized) || ok)
      ensures pending == old(pending) && stats == old(stats) && notices == old(notices) && sent == old(sent)
      ensures cachedLogoPaths == old(cachedLogoPaths) && logoListCached == old(logoListCached)
      ensures lastScanTime == old(lastScanTime)
    {
      if !sdMounted || !directoryReady {
        return false;
      }
      initialized := true;
      ok := true;
    }

    /** deinit: every request in flight fails, in map order, and the tracker empties. */
    method Deinit()
      modifies this
      ensures !old(initialized) ==> unchanged(this)
      ensures old(initialized) ==>
        !initialized && pending == map[] &&
        notices == old(notices) + Failures(old(pending), Sorted(old(pending).Keys), SHUTTING_DOWN)
      ensures stats == old(stats) && sent == old(sent) && cachedLogoPaths == old(cachedLogoPaths)
      ensures logoListCached == old(logoListCached) && lastScanTime == old(lastScanTime)
    {
      if !initialized {
        return;
      }
      var out := FailAllPending(pending, SHUTTING_DOWN);
      notices := notices + out;
      pending := map[];
      initialized := false;
    }

    /**
     * requestLogo: refused before init; served at once from the card when
     * the stored file is non-empty, at most 100000 bytes and reads back;
     * otherwise an asset request for the sanitised name goes on the bus and
     * is tracked under its id.  `stored` is what the card holds for the
     * logo, `requestId` the id the new message gets and `now` the clock.
     */
    method RequestLogo(processName: string, callback: Option<nat>, requestId: string, now: uint32,
                       stored: Option<StoredLogo>)
      returns (ok: bool)
      requires Valid()
      modifies this
      ensures Valid()
      ensures ok <==> old(initialized)
      ensures !old(initialized) ==>
        notices == old(notices) + (if callback.Some? then [Notice(callback.value, false, [], NOT_INITIALIZED)] else []) &&
        pending == old(pending) && sent == old(sent) && stats == old(stats)
      ensures old(initialized) && ServedFromCard(stored) ==>
        notices == old(notices) + (if callback.Some? then [Notice(callback.value, true, stored.value.content, "")] else []) &&
        pending == old(pending) && sent == old(sent) && stats == old(stats)
      ensures old(initialized) && !ServedFromCard(stored) ==>
        var name := SanitizeProcessName(processName);
        pending == old(pending)[requestId := LogoRequest(name, requestId, callback, now)] &&
        sent == old(sent) + [AssetRequest(requestId, name)] &&
        stats == old(stats).(requestsSubmitted := old(stats).requestsSubmitted + 1) &&
        notices == old(notices)
      ensures initialized == old(initialized) && cachedLogoPaths == old(cachedLogoPaths)
      ensures logoListCached == old(logoListCached) && lastScanTime == old(lastScanTime)
    {
      if !initialized {
        if callback.Some? {
          notices := notices + [Notice(callback.value, false, [], NOT_INITIALIZED)];
        }
        return false;
      }
      var sanitized := SanitizeProcessName(processName);
      if ServedFromCard(stored) {
        if callback.Some? {
          notices := notices + [Notice(callback.value, true, stored.value.content, "")];
        }
        return true;
      }
      Track(LogoRequest(sanitized, requestId, callback, now));
      ok := true;
    }

    /** Put the asset request on the bus and track it under its id. */
    method Track(request: LogoRequest)
      requires Valid()
      modifies this
      ensures Valid()
      ensures pending == old(pending)[request.requestId := request]
      ensures sent == old(sent) + [AssetRequest(request.requestId, request.processName)]
      ensures stats == old(stats).(requestsSubmitted := old(stats).requestsSubmitted + 1)
      ensures notices == old(notices) && initialized == old(initialized) && cachedLogoPaths == old(cachedLogoPaths)
      ensures logoListCached == old(logoListCached) && lastScanTime == old(lastScanTime)
    {
      pending := pending[request.requestId := request];
      sent := sent + [AssetRequest(request.requestId, request.processName)];
      stats := stats.(requestsSubmitted := stats.requestsSubmitted + 1);
    }

    /**
     * The effect of a timeout pass: the overdue requests leave the tracker,
     * each gets a "Request timed out" failure in map order, and each counts.
     */
    twostate predicate TimedOut(now: uint32)
      reads this
    {
      var ids := OverdueIds(old(pending), now, requestTimeoutMs);
      pending == NotOverdue(old(pending), now, requestTimeoutMs) &&
      notices == old(notices) + Failures(old(pending), ids, TIMED_OUT) &&
      stats == old(stats).(requestsTimedOut := old(stats).requestsTimedOut + |ids|)
    }

    /**
     * update: every request more than the timeout old (in 32-bit
     * millisecond arithmetic) fails with "Request timed out", in map order,
     * and leaves the tracker; each counts as timed out.
     */
    method Update(now: uint32)
      requires Valid()
      modifies this
      ensures Valid()
      ensures !old(initialized) ==> unchanged(this)
      ensures old(initialized) ==> TimedOut(now)
      ensures initialized == old(initialized) && sent == old(sent) && cachedLogoPaths == old(cachedLogoPaths)
      ensures logoListCached == old(logoListCached) && lastScanTime == old(lastScanTime)
    {
      if !initialized {
        return;
      }
      var rest, out, count := ExpireOverdue(pending, now, requestTimeoutMs);
      pending := rest;
      notices := notices + out;
      stats := stats.(requestsTimedOut := stats.requestsTimedOut + count);
    }

    /**
     * scanLogosOnce: a cached list younger than the cache timeout is kept;
     * otherwise the list is cleared and, when the card is mounted, rebuilt
     * from its listing of `/logos` and stamped with the time.  `listing` is
     * that listing, `None` when the card is not mounted.
     */
    method ScanLogosOnce(now: uint32, listing: Option<seq<DirEntry>>) returns (ok: bool)
      requires listing.Some? ==> DistinctNames(listing.value)
      modifies this
      ensures var young := old(logoListCached) && LogoSupplier.Elapsed(now, old(lastScanTime)) < cacheTimeoutMs;
        (young ==> ok && cachedLogoPaths == old(cachedLogoPaths) && logoListCached && lastScanTime == old(lastScanTime)) &&
        (!young && listing.None? ==>
           !ok && cachedLogoPaths == [] && logoListCached == old(logoListCached) && lastScanTime == old(lastScanTime)) &&
        (!young && listing.Some? ==>
           ok && cachedLogoPaths == Sorted(LogoPaths(listing.value)) && logoListCached && lastScanTime == now)
      ensures initialized == old(initialized) && pending == old(pending) && stats == old(stats)
      ensures notices == old(notices) && sent == old(sent)
    {
      if logoListCached && LogoSupplier.Elapsed(now, lastScanTime) < cacheTimeoutMs {
        return true;
      }
      cachedLogoPaths := [];
      if listing.None? {
        return false;
      }
      cachedLogoPaths := CollectLogoPaths(listing.value);
      logoListCached := true;
      lastScanTime := now;
      ok := true;
    }

    /** getPagedLogos: scan first when nothing is cached, then cut the page. */
    method GetPagedLogos(pageIndex: int, itemsPerPage: int, now: uint32, listing: Option<seq<DirEntry>>)
      returns (page: seq<string>)
      requires pageIndex * itemsPerPage >= 0 || itemsPerPage <= 0
      requires listing.Some? ==> DistinctNames(listing.value)
      modifies this
      ensures page == PageOf(cachedLogoPaths, pageIndex * itemsPerPage, itemsPerPage)
      ensures old(logoListCached) ==> cachedLogoPaths == old(cachedLogoPaths) && lastScanTime == old(lastScanTime)
      ensures !old(logoListCached) && listing.Some? ==>
        cachedLogoPaths == Sorted(LogoPaths(listing.value)) && logoListCached && lastScanTime == now
      ensures !old(logoListCached) && listing.None? ==> cachedLogoPaths == [] && page == []
      ensures initialized == old(initialized) && pending == old(pending) && stats == old(stats)
      ensures notices == old(notices) && sent == old(sent)
    {
      if !logoListCached {
        var _ := ScanLogosOnce(now, listing);
      }
      page := PagedLogos(cachedLogoPaths, pageIndex, itemsPerPage);
    }

    /** getTotalLogoCount: scan first when nothing is cached. */
    method GetTotalLogoCount(now: uint32, listing: Option<seq<DirEntry>>) returns (count: nat)
      requires listing.Some? ==> DistinctNames(listing.value)
      modifies this
      ensures count == |cachedLogoPaths|
      ensures old(logoListCached) ==> cachedLogoPaths == old(cachedLogoPaths) && lastScanTime == old(lastScanTime)
      ensures !old(logoListCached) && listing.Some? ==>
        count == |LogoPaths(listing.value)| && logoListCached && lastScanTime == now
      ensures initialized == old(initialized) && pending == old(pending) && stats == old(stats)
      ensures notices == old(notices) && sent == old(sent)
    {
      if !logoListCached {
        var _ := ScanLogosOnce(now, listing);
        if listing.Some? {
          SortedDistinct(LogoPaths(listing.value));
          ListingSize(cachedLogoPaths, LogoPaths(listing.value));
        }
      }
      count := |cachedLogoPaths|;
    }
  }
}
