/**
 * File naming for the logo store on the SD card: binaries live under
 * `/logos/binaries`, per-process mappings and metadata as JSON files under
 * `/logos/mappings` and `/logos/metadata`, all named after a sanitised,
 * lower-case form of the process name.  The card itself is not modelled;
 * which binary names already exist is a parameter.
 */
module LogoBinaryStorage {
  import opened Text

  const LOGOS_ROOT: string := "/logos"
  const BINARIES_DIR: string := "/logos/binaries"
  const MAPPINGS_DIR: string := "/logos/mappings"
  const METADATA_DIR: string := "/logos/metadata"
  /** LVGL's drive letter for the SD card. */
  const LVGL_DRIVE: string := "S:"

  const UNKNOWN_NAME: string := "unknown"
  const MAX_SANITIZED_LENGTH: nat := 100
  /** Version numbers tried before falling back to a timestamp. */
  const MAX_VERSION: nat := 999

  /** The characters `sanitizeFileName` replaces by '_'. */
  predicate IsUnsafeChar(c: char)
  {
    c == '/' || c == '\\' || c == ':' || c == '*' || c == '?' || c == '"' ||
    c == '<' || c == '>' || c == '|' || c == ' '
  }

  function SafeChar(c: char): (r: char)
    ensures !IsUnsafeChar(r) && !('A' <= r <= 'Z')
    ensures IsUnsafeChar(c) ==> r == '_'
    ensures !IsUnsafeChar(c) ==> r == ToLowerChar(c)
  {
    ToLowerChar(if IsUnsafeChar(c) then '_' else c)
  }

  /** Each character made safe, in order. */
  function SafeChars(s: string): (r: string)
    ensures |r| == |s|
    ensures forall i :: 0 <= i < |s| ==> r[i] == SafeChar(s[i])
  {
    if s == [] then [] else [SafeChar(s[0])] + SafeChars(s[1..])
  }

  /**
   * `sanitizeFileName`: "unknown" for an empty name; otherwise every unsafe
   * character becomes '_', letters are lower-cased and the result is cut to
   * 100 characters.
   */
  function SanitizeFileName(input: string): (r: string)
    ensures input == "" ==> r == UNKNOWN_NAME
    ensures input != "" ==> |r| == if |input| > MAX_SANITIZED_LENGTH then MAX_SANITIZED_LENGTH else |input|
    ensures input != "" ==> forall i :: 0 <= i < |r| ==> r[i] == SafeChar(input[i])
    ensures 0 < |r| <= MAX_SANITIZED_LENGTH
    ensures forall i :: 0 <= i < |r| ==> !IsUnsafeChar(r[i]) && !('A' <= r[i] <= 'Z')
  {
    if input == [] then UNKNOWN_NAME
    else
      var replaced := SafeChars(input);
      if |replaced| > MAX_SANITIZED_LENGTH then replaced[..MAX_SANITIZED_LENGTH] else replaced
  }

  /** A character already safe is left alone. */
  lemma SafeCharFixed(c: char)
    requires !IsUnsafeChar(c) && !('A' <= c <= 'Z')
    ensures SafeChar(c) == c
  {
  }

  /** Sanitising twice changes nothing more. */
  lemma SanitizeIdempotent(input: string)
    ensures SanitizeFileName(SanitizeFileName(input)) == SanitizeFileName(input)
  {
    var s := SanitizeFileName(input);
    var t := SanitizeFileName(s);
    assert |t| == |s|;
    forall i | 0 <= i < |s| ensures t[i] == s[i] {
      SafeCharFixed(s[i]);
    }
  }

  /** Case and unsafe characters do not distinguish names. */
  lemma SanitizeIgnoresCase()
    ensures SanitizeFileName("My App") == SanitizeFileName("my_app")
  {
    var a := SanitizeFileName("My App");
    var b := SanitizeFileName("my_app");
    assert |a| == |b| == 6;
    forall i | 0 <= i < 6 ensures a[i] == b[i] {
    }
  }

  /** The LVGL path of a binary, or "" for no name. */
  function BinaryPath(binaryFileName: string): (r: string)
    ensures binaryFileName == "" <==> r == ""
    ensures binaryFileName != "" ==>
      StartsWith(r, LVGL_DRIVE + BINARIES_DIR + "/") && r[|LVGL_DRIVE + BINARIES_DIR + "/"|..] == binaryFileName
  {
    if binaryFileName == "" then ""
    else
      var prefix := LVGL_DRIVE + BINARIES_DIR + "/";
      var r := prefix + binaryFileName;
      assert r[..|prefix|] == prefix && r[|prefix|..] == binaryFileName;
      r
  }

  /** The JSON file of a process under `dir`, or "" for no process. */
  function JsonPath(dir: string, processName: string): (r: string)
    ensures processName == "" <==> r == ""
    ensures processName != "" ==> r == dir + "/" + SanitizeFileName(processName) + ".json"
  {
    if processName == "" then "" else dir + "/" + SanitizeFileName(processName) + ".json"
  }

  function MappingPath(processName: string): string
  {
    JsonPath(MAPPINGS_DIR, processName)
  }

  function MetadataPath(processName: string): string
  {
    JsonPath(METADATA_DIR, processName)
  }

  /** Two processes share a mapping file exactly when their names sanitise alike. */
  lemma MappingPathShared(a: string, b: string)
    requires a != "" && b != ""
    ensures MappingPath(a) == MappingPath(b) <==> SanitizeFileName(a) == SanitizeFileName(b)
  {
    var sa := SanitizeFileName(a);
    var sb := SanitizeFileName(b);
    var p := MAPPINGS_DIR + "/";
    if MappingPath(a) == MappingPath(b) {
      assert p + sa + ".json" == p + sb + ".json";
      assert |sa| == |sb|;
      assert sa == (p + sa + ".json")[|p|..|p| + |sa|];
      assert sb == (p + sb + ".json")[|p|..|p| + |sb|];
    }
  }

  /** A mapping file is never a metadata file. */
  lemma MappingNotMetadata(a: string, b: string)
    requires a != ""
    ensures MappingPath(a) != MetadataPath(b)
  {
    if b != "" {
      assert MappingPath(a)[8] == 'a' && MetadataPath(b)[8] == 'e';
    }
  }

  /** The name tried for version `n`. */
  function VersionedName(sanitized: string, n: nat): (r: string)
    ensures StartsWith(r, sanitized) && EndsWith(r, ".bin")
  {
    var r := sanitized + "_v" + NatToString(n) + ".bin";
    assert r[..|sanitized|] == sanitized && r[|r| - 4..] == ".bin";
    r
  }

  function TimestampName(sanitized: string, nowMs: nat): (r: string)
    ensures StartsWith(r, sanitized) && EndsWith(r, ".bin")
  {
    var r := sanitized + "_" + NatToString(nowMs) + ".bin";
    assert r[..|sanitized|] == sanitized && r[|r| - 4..] == ".bin";
    r
  }

  /**
   * `generateUniqueBinaryName`: the plain name when free, else the first free
   * versioned name for versions 1 to 999, else a name with the current time.
   * `existing` is the set of binary names already on the card.
   */
  method GenerateUniqueBinaryName(baseName: string, existing: set<string>, nowMs: nat) returns (r: string)
    ensures StartsWith(r, SanitizeFileName(baseName)) && EndsWith(r, ".bin")
    ensures var s := SanitizeFileName(baseName);
      (s + ".bin" !in existing || exists k :: 1 <= k <= MAX_VERSION && VersionedName(s, k) !in existing) ==>
        r !in existing
    ensures var s := SanitizeFileName(baseName);
      (s + ".bin" !in existing ==> r == s + ".bin") &&
      (s + ".bin" in existing ==>
        (exists n :: 1 <= n <= MAX_VERSION && r == VersionedName(s, n) && r !in existing &&
           forall k :: 1 <= k < n ==> VersionedName(s, k) in existing) ||
        ((forall k :: 1 <= k <= MAX_VERSION ==> VersionedName(s, k) in existing) && r == TimestampName(s, nowMs)))
  {
    var sanitized := SanitizeFileName(baseName);
    var candidate := sanitized + ".bin";
    assert candidate[..|sanitized|] == sanitized && candidate[|candidate| - 4..] == ".bin";
    if candidate !in existing {
      return candidate;
    }
    var i := 1;
    while i <= MAX_VERSION
      invariant 1 <= i <= MAX_VERSION + 1
      invariant forall k :: 1 <= k < i ==> VersionedName(sanitized, k) in existing
    {
      candidate := VersionedName(sanitized, i);
      if candidate !in existing {
        return candidate;
      }
      i := i + 1;
    }
    r := TimestampName(sanitized, nowMs);
  }
}
