/**
 * The string handling of the logo manager: the normalisation of a process
 * name before matching (`preprocessProcessName`, in place on a `char`
 * buffer), the confidence score of a match, and the edits of the
 * comma-separated pattern list kept in a logo's metadata (`patterns` is a
 * `char[256]`).  Metadata is read and written through parameters: the card
 * is not modelled.
 */
module LogoMatching {
  import opened Wrappers
  import opened Text
  import opened Messages

  // ---------------------------------------------------------------------------
  // preprocessProcessName
  // ---------------------------------------------------------------------------

  /** The suffixes tried, in order; only the first that applies is removed. */
  const SUFFIXES: seq<string> := [".exe", ".app", "-bin", "_proxy", ".32", ".64"]
  /** The prefixes tried, in order; only the first that applies is removed. */
  const PREFIXES: seq<string> := ["com.", "org.", "net."]

  /** Suffix `i` is removed from `s`: `s` ends with it and is strictly longer. */
  predicate SuffixApplies(s: string, i: nat)
    requires i < |SUFFIXES|
  {
    |s| > |SUFFIXES[i]| && EndsWith(s, SUFFIXES[i])
  }

  /** `s` without the first of the suffixes from index `i` on that applies. */
  function StripSuffixFrom(s: string, i: nat): (r: string)
    requires i <= |SUFFIXES|
    decreases |SUFFIXES| - i
  {
    if i == |SUFFIXES| then s
    else if SuffixApplies(s, i) then s[..|s| - |SUFFIXES[i]|]
    else StripSuffixFrom(s, i + 1)
  }

  /** `s` without the first of the prefixes from index `i` on that it starts with. */
  function StripPrefixFrom(s: string, i: nat): (r: string)
    requires i <= |PREFIXES|
    decreases |PREFIXES| - i
  {
    if i == |PREFIXES| then s
    else if StartsWith(s, PREFIXES[i]) then s[|PREFIXES[i]|..]
    else StripPrefixFrom(s, i + 1)
  }

  /**
   * The name `preprocessProcessName` leaves in a buffer of `outputSize`
   * characters: the C string `input` cut to outputSize - 1 characters,
   * lower-cased, without its first applicable suffix, then without its first
   * matching prefix.
   */
  function Preprocessed(input: string, outputSize: nat): string
    requires outputSize >= 1
  {
    StripPrefixFrom(StripSuffixFrom(ToLower(CopyBounded(input, outputSize)), 0), 0)
  }

  /** What the stripping steps leave is a slice of their input. */
  lemma {:induction false} StripSuffixSlice(s: string, i: nat)
    requires i <= |SUFFIXES|
    ensures var r := StripSuffixFrom(s, i); |r| <= |s| && r == s[..|r|]
    ensures StripSuffixFrom(s, i) == s ||
      exists k :: i <= k < |SUFFIXES| && SuffixApplies(s, k) && StripSuffixFrom(s, i) == s[..|s| - |SUFFIXES[k]|]
    decreases |SUFFIXES| - i
  {
    if i < |SUFFIXES| && !SuffixApplies(s, i) {
      StripSuffixSlice(s, i + 1);
    }
  }

  lemma {:induction false} StripPrefixSlice(s: string, i: nat)
    requires i <= |PREFIXES|
    ensures var r := StripPrefixFrom(s, i); |r| <= |s| && r == s[|s| - |r|..]
    decreases |PREFIXES| - i
  {
    if i < |PREFIXES| && !StartsWith(s, PREFIXES[i]) {
      StripPrefixSlice(s, i + 1);
    }
  }

  /** A C string with no upper-case ASCII letter and no NUL. */
  predicate LowerCString(s: string)
  {
    forall k :: 0 <= k < |s| ==> s[k] != '\0' && !('A' <= s[k] <= 'Z')
  }

  /** Lower-casing a NUL-free string gives a lower-case C string. */
  lemma LowerOfCString(c: string)
    requires forall k :: 0 <= k < |c| ==> c[k] != '\0'
    ensures LowerCString(ToLower(c))
  {
    var l := ToLower(c);
    forall k | 0 <= k < |l| ensures l[k] != '\0' && !('A' <= l[k] <= 'Z') {
      assert l[k] == ToLowerChar(c[k]);
    }
  }

  /**
   * The preprocessed name fits the buffer with its terminator, holds no
   * upper-case letter, and is a contiguous piece of the lower-cased input.
   */
  lemma PreprocessedBounds(input: string, outputSize: nat)
    requires outputSize >= 1
    ensures var r := Preprocessed(input, outputSize);
      |r| < outputSize && LowerCString(r) && Contains(ToLower(input), r)
  {
    var c := CopyBounded(input, outputSize);
    var l := ToLower(c);
    var s := StripSuffixFrom(l, 0);
    var r := StripPrefixFrom(s, 0);
    StripSuffixSlice(l, 0);
    StripPrefixSlice(s, 0);
    var start := |s| - |r|;
    assert r == l[start..|s|];
    LowerSlice(c, start, |s|);
    ToLowerPrefix(input, |c|);
    SliceOccurs(ToLower(input), l, start, |s|);
  }

  lemma LowerSlice(c: string, i: nat, j: nat)
    requires i <= j <= |c|
    requires forall k :: 0 <= k < |c| ==> c[k] != '\0'
    ensures LowerCString(ToLower(c)[i..j])
  {
    var l := ToLower(c);
    LowerOfCString(c);
    forall k | 0 <= k < j - i ensures l[i..j][k] != '\0' && !('A' <= l[i..j][k] <= 'Z') {
      assert l[i..j][k] == l[i + k];
    }
  }

  lemma SliceOccurs(t: string, l: string, i: nat, j: nat)
    requires i <= j <= |l| <= |t| && t[..|l|] == l
    ensures OccursAt(t, l[i..j], i)
  {
    forall k | i <= k < j ensures t[k] == l[k] {
      assert t[..|l|][k] == t[k];
    }
    assert t[i..j] == l[i..j];
  }

  lemma ToLowerPrefix(a: string, n: nat)
    requires n <= |a|
    ensures ToLower(a[..n]) == ToLower(a)[..n]
  {
  }

  /** Where the first NUL is depends only on where the NULs are. */
  lemma {:induction false} BeforeNulSameNuls(a: string, b: string)
    requires |a| == |b|
    requires forall k :: 0 <= k < |a| ==> (a[k] == '\0' <==> b[k] == '\0')
    ensures |BeforeNul(a)| == |BeforeNul(b)|
    decreases |a|
  {
    if a != [] && a[0] != '\0' {
      BeforeNulSameNuls(a[1..], b[1..]);
    }
  }

  /**
   * Case does not matter: two names equal up to ASCII case preprocess to the
   * same name.
   */
  lemma PreprocessedIgnoresCase(a: string, b: string, outputSize: nat)
    requires outputSize >= 1
    requires ToLower(a) == ToLower(b)
    ensures Preprocessed(a, outputSize) == Preprocessed(b, outputSize)
  {
    var ca := CopyBounded(a, outputSize);
    var cb := CopyBounded(b, outputSize);
    assert |a| == |b|;
    forall k | 0 <= k < |a| ensures a[k] == '\0' <==> b[k] == '\0' {
      assert ToLower(a)[k] == ToLower(b)[k];
    }
    BeforeNulSameNuls(a, b);
    assert |ca| == |cb|;
    ToLowerPrefix(a, |ca|);
    ToLowerPrefix(b, |cb|);
  }

  /** "Chrome.EXE" becomes "chrome". */
  lemma PreprocessedChrome(input: string)
    requires input == "Chrome.EXE"
    ensures Preprocessed(input, 64) == "chrome"
  {
    assert CopyBounded(input, 64) == input;
    var l := ToLower(input);
    assert l == "chrome.exe";
    assert SuffixApplies(l, 0);
    var t := StripSuffixFrom(l, 0);
    assert t == "chrome";
    assert t[..4] == "chro";
    assert !StartsWith(t, PREFIXES[0]) && !StartsWith(t, PREFIXES[1]) && !StartsWith(t, PREFIXES[2]);
  }

  /** A name that is only a suffix keeps it: ".exe" stays ".exe". */
  lemma PreprocessedKeepsBareSuffix(input: string)
    requires input == ".exe"
    ensures Preprocessed(input, 64) == ".exe"
  {
    assert CopyBounded(input, 64) == input;
    assert ToLower(input) == input;
    assert !SuffixApplies(input, 0);
    assert !EndsWith(input, SUFFIXES[1]) && !EndsWith(input, SUFFIXES[2]) && !EndsWith(input, SUFFIXES[3]);
    assert !EndsWith(input, SUFFIXES[4]) && !EndsWith(input, SUFFIXES[5]);
    assert StripSuffixFrom(input, 0) == input;
    assert !StartsWith(input, PREFIXES[0]) && !StartsWith(input, PREFIXES[1]) && !StartsWith(input, PREFIXES[2]);
  }

  /** The suffix goes first, then the prefix: "com.spotify.app" becomes "spotify". */
  lemma PreprocessedBothEnds(input: string)
    requires input == "com.spotify.app"
    ensures Preprocessed(input, 64) == "spotify"
  {
    SpotifyCopied(input);
    SpotifySuffix(input);
    SpotifyPrefix("com.spotify");
  }

  lemma SpotifyCopied(input: string)
    requires input == "com.spotify.app"
    ensures ToLower(CopyBounded(input, 64)) == input
  {
    assert Fits(input, 64);
    LowerFixed(input);
  }

  /** A name with no upper-case letter is its own lower case. */
  lemma LowerFixed(s: string)
    requires forall k :: 0 <= k < |s| ==> !('A' <= s[k] <= 'Z')
    ensures ToLower(s) == s
  {
    assert forall k :: 0 <= k < |s| ==> ToLower(s)[k] == s[k];
  }

  lemma SpotifySuffix(s: string)
    requires s == "com.spotify.app"
    ensures StripSuffixFrom(s, 0) == "com.spotify"
  {
    assert s[|s| - 4..] == ".app";
    assert !SuffixApplies(s, 0) && SuffixApplies(s, 1);
  }

  lemma SpotifyPrefix(s: string)
    requires s == "com.spotify"
    ensures StripPrefixFrom(s, 0) == "spotify"
  {
    assert s[..4] == "com.";
    assert StartsWith(s, PREFIXES[0]);
  }

  /** The cut to the buffer comes before the suffix test: "discord.exe" in 8 characters is "discord". */
  lemma PreprocessedCutFirst(input: string)
    requires input == "discord.exe"
    ensures Preprocessed(input, 8) == "discord"
  {
    DiscordCut(input);
    DiscordKept("discord");
  }

  lemma DiscordCut(input: string)
    requires input == "discord.exe"
    ensures CopyBounded(input, 8) == "discord"
  {
    assert !Fits(input, 8);
    assert BeforeNul(input) == input;
  }

  lemma DiscordKept(s: string)
    requires s == "discord"
    ensures StripPrefixFrom(StripSuffixFrom(ToLower(s), 0), 0) == s
  {
    LowerFixed(s);
    assert s[|s| - 4..] == "cord" && s[|s| - 3..] == "ord";
    assert !SuffixApplies(s, 0) && !SuffixApplies(s, 1) && !SuffixApplies(s, 2);
    assert !SuffixApplies(s, 3) && !SuffixApplies(s, 4) && !SuffixApplies(s, 5);
    assert StripSuffixFrom(s, 0) == s;
    assert s[..4] == "disc";
    assert !StartsWith(s, PREFIXES[0]) && !StartsWith(s, PREFIXES[1]) && !StartsWith(s, PREFIXES[2]);
  }

  /**
   * `strncpy(output, input, n)`: the characters of the C string `input` up to
   * n, then NUL padding up to n.
   */
  method StrNCopy(output: array<char>, input: string, n: nat)
    requires n <= output.Length
    modifies output
    ensures var c := BeforeNul(input);
      forall k :: 0 <= k < n ==> output[k] == if k < |c| then c[k] else '\0'
    ensures forall k :: n <= k < output.Length ==> output[k] == old(output[k])
  {
    ghost var c := BeforeNul(input);
    var i := 0;
    while i < n && i < |input| && input[i] != '\0'
      invariant i <= n && i <= |c|
      invariant forall k :: 0 <= k < i ==> output[k] == c[k]
      invariant forall k :: n <= k < output.Length ==> output[k] == old(output[k])
    {
      output[i] := input[i];
      i := i + 1;
    }
    assert i == n || i == |c|;
    while i < n
      invariant i <= n
      invariant forall k :: 0 <= k < i ==> output[k] == if k < |c| then c[k] else '\0'
      invariant forall k :: n <= k < output.Length ==> output[k] == old(output[k])
    {
      output[i] := '\0';
      i := i + 1;
    }
  }

  /**
   * `preprocessProcessName`: writes the preprocessed form of `input` into
   * `output[..outputSize]` as a C string; nothing happens for a null input
   * or an empty buffer.
   */
  method PreprocessProcessName(input: Option<string>, output: array<char>, outputSize: nat)
    requires outputSize <= output.Length
    modifies output
    ensures input.None? || outputSize == 0 ==> output[..] == old(output[..])
    ensures input.Some? && outputSize > 0 ==> var r := Preprocessed(input.value, outputSize);
      |r| < outputSize && output[..|r|] == r && output[|r|] == '\0'
    ensures forall k :: outputSize <= k < output.Length ==> output[k] == old(output[k])
  {
    if input.None? || outputSize == 0 {
      return;
    }
    ghost var c := CopyBounded(input.value, outputSize);
    CopyIn(output, input.value, outputSize);
    ghost var n := |c|;
    ghost var l := ToLower(c);
    var i := 0;
    while output[i] != '\0'
      invariant 0 <= i <= n && output[n] == '\0'
      invariant forall k :: 0 <= k < i ==> output[k] == l[k]
      invariant forall k :: i <= k < n ==> output[k] == c[k]
      invariant forall k :: outputSize <= k < output.Length ==> output[k] == old(output[k])
      decreases n - i
    {
      output[i] := ToLowerChar(output[i]);
      i := i + 1;
    }
    // The loop stops at the first NUL, so i is strlen(output) from here on.
    var len := i;
    assert len == n;
    assert output[..len] == l;
    len := StripSuffix(output, len, outputSize);
    assert output[..len] == StripSuffixFrom(l, 0);
    StripPrefix(output, len, outputSize);
  }

  /** The copy and the terminator: `output` holds CopyBounded(input, outputSize) as a C string. */
  method CopyIn(output: array<char>, input: string, outputSize: nat)
    requires 1 <= outputSize <= output.Length
    modifies output
    ensures var c := CopyBounded(input, outputSize);
      |c| < outputSize && output[|c|] == '\0' && forall k :: 0 <= k < |c| ==> output[k] == c[k]
    ensures forall k :: outputSize <= k < output.Length ==> output[k] == old(output[k])
  {
    StrNCopy(output, input, outputSize - 1);
    output[outputSize - 1] := '\0';
  }

  /** The suffix loop: cuts `output[..len]` at its first applicable suffix; returns the new strlen. */
  method StripSuffix(output: array<char>, len: nat, outputSize: nat) returns (len': nat)
    requires len < outputSize <= output.Length && output[len] == '\0'
    requires forall k :: 0 <= k < len ==> output[k] != '\0'
    modifies output
    ensures len' < outputSize && output[len'] == '\0'
    ensures output[..len'] == StripSuffixFrom(old(output[..len]), 0)
    ensures forall k :: outputSize <= k < output.Length ==> output[k] == old(output[k])
  {
    ghost var s := output[..len];
    var i := 0;
    while i < |SUFFIXES|
      invariant i <= |SUFFIXES| && output[..] == old(output[..])
      invariant StripSuffixFrom(s, 0) == StripSuffixFrom(s, i)
    {
      var suffixLen := |SUFFIXES[i]|;
      assert len > suffixLen ==> s[len - suffixLen..] == output[len - suffixLen..len];
      if len > suffixLen && output[len - suffixLen..len] == SUFFIXES[i] {
        assert SuffixApplies(s, i);
        output[len - suffixLen] := '\0';
        len' := len - suffixLen;
        assert output[..len'] == s[..len'];
        return;
      }
      assert !SuffixApplies(s, i);
      i := i + 1;
    }
    len' := len;
  }

  /** The prefix loop: shifts `output[..len + 1]` left over its first matching prefix. */
  method StripPrefix(output: array<char>, len: nat, outputSize: nat)
    requires len < outputSize <= output.Length && output[len] == '\0'
    modifies output
    ensures var r := StripPrefixFrom(old(output[..len]), 0);
      |r| <= len && output[..|r|] == r && output[|r|] == '\0'
    ensures forall k :: outputSize <= k < output.Length ==> output[k] == old(output[k])
  {
    ghost var s := output[..len];
    var i := 0;
    while i < |PREFIXES|
      invariant i <= |PREFIXES| && output[..] == old(output[..])
      invariant StripPrefixFrom(s, 0) == StripPrefixFrom(s, i)
    {
      var prefixLen := |PREFIXES[i]|;
      assert prefixLen <= len ==> s[..prefixLen] == output[..prefixLen];
      if prefixLen <= len && output[..prefixLen] == PREFIXES[i] {
        assert StartsWith(s, PREFIXES[i]);
        ShiftLeft(output, prefixLen, len - prefixLen + 1);
        assert output[..len - prefixLen] == s[prefixLen..];
        return;
      }
      assert !StartsWith(s, PREFIXES[i]);
      i := i + 1;
    }
  }

  /** `memmove(output, output + shift, count)`. */
  method ShiftLeft(output: array<char>, shift: nat, count: nat)
    requires shift + count <= output.Length
    modifies output
    ensures forall k :: 0 <= k < count ==> output[k] == old(output[k + shift])
    ensures forall k :: count <= k < output.Length ==> output[k] == old(output[k])
  {
    var j := 0;
    while j < count
      invariant j <= count
      invariant forall k :: 0 <= k < j ==> output[k] == old(output[k + shift])
      invariant forall k :: j <= k < output.Length ==> output[k] == old(output[k])
    {
      output[j] := output[j + shift];
      j := j + 1;
    }
  }

  // ---------------------------------------------------------------------------
  // calculateMatchConfidence
  // ---------------------------------------------------------------------------

  /** Both arguments present and non-empty. */
  predicate BothGiven(processName: Option<string>, pattern: Option<string>)
  {
    processName.Some? && pattern.Some? && processName.value != "" && pattern.value != ""
  }

  /**
   * `calculateMatchConfidence`: 0 without two non-empty names, 100 for the
   * same name, 85 when one contains the other, 75 otherwise.
   */
  function MatchConfidence(processName: Option<string>, pattern: Option<string>): (r: nat)
    ensures r == 0 || r == 75 || r == 85 || r == 100
    ensures r == 0 <==> !BothGiven(processName, pattern)
    ensures r == 100 <==> BothGiven(processName, pattern) && processName.value == pattern.value
    ensures r >= 85 <==> (BothGiven(processName, pattern) &&
      (Contains(pattern.value, processName.value) || Contains(processName.value, pattern.value)))
  {
    if processName.None? || pattern.None? then 0
    else
      var p := processName.value;
      var q := pattern.value;
      if |p| == 0 || |q| == 0 then 0
      else if p == q then
        assert OccursAt(q, p, 0);
        100
      else if Contains(q, p) || Contains(p, q) then 85
      else 75
  }

  /** The score does not depend on which name is the pattern. */
  lemma MatchConfidenceSymmetric(a: Option<string>, b: Option<string>)
    ensures MatchConfidence(a, b) == MatchConfidence(b, a)
  {
  }

  // ---------------------------------------------------------------------------
  // The comma-separated pattern list
  // ---------------------------------------------------------------------------

  /** `sizeof(LogoMetadata::patterns)`. */
  const PATTERNS_SIZE: nat := 256

  /** The list with `pattern` appended after a comma, or alone when the list is empty. */
  function Appended(current: string, pattern: string): string
  {
    if current == "" then pattern else current + "," + pattern
  }

  /**
   * The pattern text `addMatchingPattern` stores: the appended list cut to
   * 255 characters, as `strncpy` into the 256-character field keeps it.
   */
  function AddPattern(current: string, pattern: string): (r: string)
    ensures Fits(r, PATTERNS_SIZE)
    ensures |r| <= |Appended(current, pattern)| && r == Appended(current, pattern)[..|r|]
    ensures Fits(Appended(current, pattern), PATTERNS_SIZE) ==> r == Appended(current, pattern)
  {
    var joined := Appended(current, pattern);
    var cut := if |joined| >= PATTERNS_SIZE then joined[..PATTERNS_SIZE - 1] else joined;
    CopyBounded(cut, PATTERNS_SIZE)
  }

  /** Arduino `String::indexOf`: -1 on an empty string, else the first occurrence. */
  function StringIndexOf(s: string, sub: string): (r: int)
    ensures r == -1 <==> s == "" || !Contains(s, sub)
    ensures r != -1 ==> OccursAt(s, sub, r) && forall j :: 0 <= j < r ==> !OccursAt(s, sub, j)
  {
    if s == "" then -1 else IndexOf(s, sub)
  }

  /**
   * The pattern text `removeMatchingPattern` stores, or None when the pattern
   * does not occur: the first occurrence is cut out together with the comma
   * before it, or failing that the comma after it.
   */
  function RemovePattern(current: string, pattern: string): (r: Option<string>)
    ensures r.None? <==> current == "" || !Contains(current, pattern)
    ensures r.Some? ==> |r.value| + |pattern| <= |current| <= |r.value| + |pattern| + 1
  {
    var index := StringIndexOf(current, pattern);
    var n := |pattern|;
    if index < 0 then None
    else if index > 0 && current[index - 1] == ',' then
      Some(current[..index - 1] + current[index + n..])
    else if index + n < |current| && current[index + n] == ',' then
      Some(current[..index] + current[index + n + 1..])
    else
      Some(current[..index] + current[index + n..])
  }

  /**
   * What a removal leaves is the list with one piece cut out, and that piece
   * covers the first occurrence of the pattern.
   */
  lemma RemovePatternSplice(current: string, pattern: string)
    requires RemovePattern(current, pattern).Some?
    ensures var r := RemovePattern(current, pattern).value;
      var index := StringIndexOf(current, pattern);
      exists a :: (0 <= a <= index && index + |pattern| <= a + |current| - |r| && a <= |r| &&
        r == current[..a] + current[a + |current| - |r|..])
  {
    var r := RemovePattern(current, pattern).value;
    var index := StringIndexOf(current, pattern);
    var n := |pattern|;
    if index > 0 && current[index - 1] == ',' {
      assert r == current[..index - 1] + current[index - 1 + |current| - |r|..];
    } else if index + n < |current| && current[index + n] == ',' {
      assert r == current[..index] + current[index + |current| - |r|..];
    } else {
      assert r == current[..index] + current[index + |current| - |r|..];
    }
  }

  /** A removal keeps the list within the field. */
  lemma RemovePatternFits(current: string, pattern: string)
    requires Fits(current, PATTERNS_SIZE) && RemovePattern(current, pattern).Some?
    ensures Fits(RemovePattern(current, pattern).value, PATTERNS_SIZE)
  {
    var r := RemovePattern(current, pattern).value;
    RemovePatternSplice(current, pattern);
    var a :| 0 <= a <= |r| && r == current[..a] + current[a + |current| - |r|..];
    forall k | 0 <= k < |r| ensures r[k] != '\0' {
      if k < a {
        assert r[k] == current[k];
      } else {
        assert r[k] == current[k + |current| - |r|];
      }
    }
  }

  /**
   * `addMatchingPattern`: the text to store, or None when the manager is not
   * initialised, an argument is null or the metadata lookup failed
   * (`stored` is the looked-up `patterns` field).
   */
  function AddMatchingPattern(initialized: bool, canonicalName: Option<string>, pattern: Option<string>,
                              stored: Option<string>): (r: Option<string>)
    ensures r.Some? <==> initialized && canonicalName.Some? && pattern.Some? && stored.Some?
    ensures r.Some? ==> Fits(r.value, PATTERNS_SIZE) && StartsWith(Appended(stored.value, pattern.value), r.value)
  {
    if !initialized || canonicalName.None? || pattern.None? || stored.None? then None
    else Some(AddPattern(stored.value, pattern.value))
  }


  // ---------------------------------------------------------------------------
  // The list as entries
  // ---------------------------------------------------------------------------

  /** `s` cut at every comma; always at least one piece. */
  function Split(s: string): (r: seq<string>)
    ensures |r| >= 1
    decreases |s|
  {
    var i := IndexOf(s, ",");
    if i < 0 then [s] else [s[..i]] + Split(s[i + 1..])
  }

  /** The patterns of a list: none for "", else the comma-separated pieces. */
  function Entries(s: string): seq<string>
  {
    if s == "" then [] else Split(s)
  }

  predicate NoComma(s: string)
  {
    ',' !in s
  }

  /** Entries that can stand in the list: non-empty and without a comma. */
  predicate WellFormedEntries(es: seq<string>)
  {
    forall k :: 0 <= k < |es| ==> es[k] != "" && NoComma(es[k])
  }

  /** Splitting and joining gives the text back. */
  lemma {:induction false} JoinSplit(s: string)
    ensures JoinWith(Split(s), ',') == s
    decreases |s|
  {
    var i := IndexOf(s, ",");
    if i >= 0 {
      var head, tail := s[..i], s[i + 1..];
      var rest := Split(tail);
      assert JoinWith([head] + rest, ',') == head + [','] + JoinWith(rest, ',') by {
        assert ([head] + rest)[1..] == rest;
      }
      JoinSplit(tail);
      assert head + [','] + tail == s by {
        CharAt(s, ',', i);
      }
    }
  }

  lemma JoinEntries(s: string)
    ensures JoinWith(Entries(s), ',') == s
  {
    if s != "" {
      JoinSplit(s);
    }
  }

  /** Joining well-formed entries and reading them back gives the same entries. */
  lemma {:induction false} EntriesJoin(es: seq<string>)
    requires WellFormedEntries(es)
    ensures Entries(JoinWith(es, ',')) == es
    decreases |es|
  {
    if |es| == 1 {
      SeparatorAbsent(es[0], ',');
    } else if |es| >= 2 {
      var t := JoinWith(es[1..], ',');
      FirstSeparator(es[0], ',', t);
      var s := es[0] + "," + t;
      assert s[..|es[0]|] == es[0] && s[|es[0]| + 1..] == t;
      JoinWithStartsWith(es[1..], ',');
      assert t != "";
      EntriesJoin(es[1..]);
      assert Split(s) == [es[0]] + Split(t);
    }
  }

  /** Pieces produced by splitting contain no comma. */
  lemma {:induction false} SplitNoComma(s: string)
    ensures forall k :: 0 <= k < |Split(s)| ==> NoComma(Split(s)[k])
    decreases |s|
  {
    var i := IndexOf(s, ",");
    if i < 0 {
      forall j | 0 <= j < |s| ensures s[j] != ',' {
        CharAt(s, ',', j);
      }
    } else {
      var head, rest := s[..i], Split(s[i + 1..]);
      assert NoComma(head) by {
        forall j | 0 <= j < i ensures s[j] != ',' {
          CharAt(s, ',', j);
        }
      }
      SplitNoComma(s[i + 1..]);
      assert Split(s) == [head] + rest;
      forall k | 0 <= k < |Split(s)| ensures NoComma(Split(s)[k]) {
        if k > 0 {
          assert Split(s)[k] == rest[k - 1];
        }
      }
    }
  }

  /**
   * Adding a pattern that fits and has no comma adds exactly one entry at
   * the end of the list.
   */
  lemma AddPatternEntries(current: string, pattern: string)
    requires WellFormedEntries(Entries(current))
    requires pattern != "" && NoComma(pattern) && Fits(Appended(current, pattern), PATTERNS_SIZE)
    ensures Entries(AddPattern(current, pattern)) == Entries(current) + [pattern]
  {
    var es := Entries(current) + [pattern];
    JoinEntries(current);
    assert JoinWith(es, ',') == Appended(current, pattern) by {
      JoinWithSnoc(Entries(current), ',', pattern);
    }
    EntriesJoin(es);
  }

  /**
   * On a list where the pattern does not occur yet, removing a just-added
   * pattern restores the list.
   */
  lemma RemoveAfterAdd(current: string, pattern: string)
    requires pattern != "" && NoComma(pattern) && !Contains(current, pattern)
    requires Fits(Appended(current, pattern), PATTERNS_SIZE)
    ensures RemovePattern(AddPattern(current, pattern), pattern) == Some(current)
  {
    var s := Appended(current, pattern);
    var at := if current == "" then 0 else |current| + 1;
    assert StringIndexOf(s, pattern) == at by {
      assert s[at..] == pattern;
      assert OccursAt(s, pattern, at);
      forall j | 0 <= j < at ensures !OccursAt(s, pattern, j) {
        assert j + |pattern| <= |current| ==> s[j..j + |pattern|] == current[j..j + |pattern|];
        assert j + |pattern| <= |current| ==> !OccursAt(current, pattern, j);
        if j + |pattern| > |current| && j + |pattern| <= |s| {
          var w := s[j..j + |pattern|];
          assert w[|current| - j] == ',';
          assert w != pattern;
        }
      }
    }
    assert AddPattern(current, pattern) == s;
    assert s[at + |pattern|..] == [];
    if current != "" {
      assert at > 0 && s[at - 1] == ',';
      assert s[..at - 1] == current;
      assert s[..at - 1] + s[at + |pattern|..] == current;
    }
  }

  // ---------------------------------------------------------------------------
  // Finding: removal by substring
  // ---------------------------------------------------------------------------

  /**
   * `removeMatchingPattern` searches for the pattern as a substring, so a
   * longer entry that starts with it is what gets cut: removing "chrome"
   * from "chrome2,chrome" leaves "2,chrome".
   */
  lemma RemoveBySubstring(current: string, pattern: string)
    requires current == "chrome2,chrome" && pattern == "chrome"
    ensures RemovePattern(current, pattern) == Some("2,chrome")
    ensures Entries(current) == ["chrome2", "chrome"]
  {
    assert RemovePattern(current, pattern) == Some("2,chrome") by {
      assert OccursAt(current, pattern, 0);
      assert StringIndexOf(current, pattern) == 0;
      assert current[6] == '2';
      assert current[..0] + current[6..] == "2,chrome";
    }
    assert Entries(current) == ["chrome2", "chrome"] by {
      EntriesJoin(["chrome2", "chrome"]);
      assert JoinWith(["chrome2", "chrome"], ',') == current;
    }
  }

  /** `es` without its first entry equal to `e`. */
  function RemoveFirst(es: seq<string>, e: string): (r: seq<string>)
    ensures e in es ==> |r| == |es| - 1
    ensures e !in es ==> r == es
  {
    if es == [] then []
    else if es[0] == e then es[1..]
    else [es[0]] + RemoveFirst(es[1..], e)
  }

  /** Removal by whole entries: None when no entry equals the pattern. */
  function RemoveEntry(current: string, pattern: string): (r: Option<string>)
    ensures r.None? <==> pattern !in Entries(current)
  {
    var es := Entries(current);
    if pattern !in es then None else Some(JoinWith(RemoveFirst(es, pattern), ','))
  }

  /**
   * `removeMatchingPattern` as written: None when the manager is not
   * initialised, an argument is null, the metadata lookup failed or the
   * pattern occurs nowhere in the stored text; otherwise the text with its
   * first occurrence of the pattern cut out (RemovePattern).
   */
  function RemoveMatchingPattern(initialized: bool, canonicalName: Option<string>, pattern: Option<string>,
                                 stored: Option<string>): (r: Option<string>)
    ensures r.Some? <==> (initialized && canonicalName.Some? && pattern.Some? && stored.Some? &&
      StringIndexOf(stored.value, pattern.value) >= 0)
    ensures r.Some? ==> |r.value| + |pattern.value| <= |stored.value| <= |r.value| + |pattern.value| + 1
  {
    if !initialized || canonicalName.None? || pattern.None? || stored.None? then None
    else RemovePattern(stored.value, pattern.value)
  }

  /**
   * The pattern found inside a longer entry: "chrome" in "foo,chromebar" is
   * cut out with the comma before it, leaving "foobar", a single entry that
   * was never in the list.
   */
  lemma RemoveCutsInsideEntry(stored: string, pattern: string)
    requires stored == "foo,chromebar" && pattern == "chrome"
    ensures RemoveMatchingPattern(true, Some("chrome"), Some(pattern), Some(stored)) == Some("foobar")
    ensures pattern !in Entries(stored)
  {
    assert OccursAt(stored, pattern, 4);
    forall j | 0 <= j < 4 ensures !OccursAt(stored, pattern, j) {
      assert stored[j..j + |pattern|][0] != 'c';
    }
    assert StringIndexOf(stored, pattern) == 4;
    assert stored[..3] + stored[10..] == "foobar";
    EntriesJoin(["foo", "chromebar"]);
    assert JoinWith(["foo", "chromebar"], ',') == stored;
  }

  /**
   * `removeMatchingPattern` with the removal it evidently intends: None in
   * the same cases, and when no entry equals the pattern; otherwise the list
   * without its first entry equal to the pattern (RemoveEntry).
   */
  function RemoveMatchingEntry(initialized: bool, canonicalName: Option<string>, pattern: Option<string>,
                               stored: Option<string>): (r: Option<string>)
    ensures r.Some? <==> (initialized && canonicalName.Some? && pattern.Some? && stored.Some? &&
      pattern.value in Entries(stored.value))
  {
    if !initialized || canonicalName.None? || pattern.None? || stored.None? then None
    else RemoveEntry(stored.value, pattern.value)
  }

  /** The corrected removal keeps every other entry of a well-formed list. */
  lemma RemoveMatchingEntryEntries(canonicalName: string, pattern: string, stored: string)
    requires WellFormedEntries(Entries(stored))
    ensures var r := RemoveMatchingEntry(true, Some(canonicalName), Some(pattern), Some(stored));
      r.Some? ==> Entries(r.value) == RemoveFirst(Entries(stored), pattern)
  {
    if pattern in Entries(stored) {
      RemoveEntryEntries(stored, pattern);
    }
  }

  lemma {:induction false} RemoveFirstWellFormed(es: seq<string>, e: string)
    requires WellFormedEntries(es)
    ensures WellFormedEntries(RemoveFirst(es, e))
    decreases |es|
  {
    if es != [] && es[0] != e {
      RemoveFirstWellFormed(es[1..], e);
      var t := RemoveFirst(es[1..], e);
      assert forall k :: 1 <= k < |t| + 1 ==> ([es[0]] + t)[k] == t[k - 1];
    }
  }

  /**
   * Removing by entries takes out exactly the first entry equal to the
   * pattern and leaves every other entry as it was.
   */
  lemma RemoveEntryEntries(current: string, pattern: string)
    requires WellFormedEntries(Entries(current)) && pattern in Entries(current)
    ensures RemoveEntry(current, pattern).Some?
    ensures Entries(RemoveEntry(current, pattern).value) == RemoveFirst(Entries(current), pattern)
  {
    RemoveFirstWellFormed(Entries(current), pattern);
    EntriesJoin(RemoveFirst(Entries(current), pattern));
  }

  /** Removing by entries undoes adding a new entry. */
  lemma RemoveEntryAfterAdd(current: string, pattern: string)
    requires WellFormedEntries(Entries(current)) && pattern !in Entries(current)
    requires pattern != "" && NoComma(pattern) && Fits(Appended(current, pattern), PATTERNS_SIZE)
    ensures RemoveEntry(AddPattern(current, pattern), pattern) == Some(current)
  {
    AddPatternEntries(current, pattern);
    var es := Entries(current);
    RemoveFirstSnoc(es, pattern);
    JoinEntries(current);
  }

  lemma {:induction false} RemoveFirstSnoc(es: seq<string>, e: string)
    requires e !in es
    ensures RemoveFirst(es + [e], e) == es
    decreases |es|
  {
    if es != [] {
      assert (es + [e])[1..] == es[1..] + [e];
      RemoveFirstSnoc(es[1..], e);
    }
  }

  /** The case that substring removal gets wrong, removed by entries. */
  lemma RemoveEntryKeepsLongerEntry(current: string, pattern: string)
    requires current == "chrome2,chrome" && pattern == "chrome"
    ensures RemoveEntry(current, pattern) == Some("chrome2")
  {
    EntriesJoin(["chrome2", "chrome"]);
    assert JoinWith(["chrome2", "chrome"], ',') == current;
    assert RemoveFirst(["chrome2", "chrome"], pattern) == ["chrome2"];
  }
}
