/** The sanitizers every external string passes through (peer/sanitize.rs): UTF-8-safe
    truncation, file names and device names, each shown to reach a normal form. */
module Sanitize {
  import opened Selection
  import opened Wrappers
  import opened Utf8

  const MAX_DEVICE_NAME_CODEPOINTS := 64
  const MAX_FILENAME_BYTES := 200

  predicate IsBidiControl(c: char) {
    || '\U{202A}' <= c <= '\U{202E}'
    || '\U{2066}' <= c <= '\U{2069}'
    || c == '\U{200E}'
    || c == '\U{200F}'
  }

  predicate IsControlChar(c: char) {
    c <= '\U{001F}' || '\U{007F}' <= c <= '\U{009F}'
  }

  predicate IsForbidden(c: char) {
    || c == '/' || c == '\\' || c == '<' || c == '>' || c == ':'
    || c == '"' || c == '|' || c == '?' || c == '*' || c == '\0'
  }

  /** The Unicode White_Space property, which `str::trim` removes. */
  predicate IsWhitespace(c: char) {
    || '\t' <= c <= '\r'
    || c == ' ' || c == '\U{0085}' || c == '\U{00A0}' || c == '\U{1680}' || c == '\U{2028}'
    || c == '\U{2029}' || c == '\U{202F}' || c == '\U{205F}' || c == '\U{3000}'
    || '\U{2000}' <= c <= '\U{200A}'
  }

  predicate Printable(c: char) { !IsBidiControl(c) && !IsControlChar(c) }

  predicate FilenameSafe(c: char) { Printable(c) && !IsForbidden(c) }

  predicate DotOrSpace(c: char) { c == '.' || c == ' ' }

  // ---------------------------------------------------------------------------
  // Strings
  // ---------------------------------------------------------------------------

  predicate All(s: string, p: char -> bool) { forall i | 0 <= i < |s| :: p(s[i]) }

  function TrimEnd(s: string, p: char -> bool): (r: string)
    ensures r <= s
    ensures r != "" ==> !p(r[|r| - 1])
    ensures s != "" && !p(s[|s| - 1]) ==> r == s
  {
    if s != [] && p(s[|s| - 1]) then TrimEnd(s[..|s| - 1], p) else s
  }

  function TrimStart(s: string, p: char -> bool): (r: string)
    ensures |r| <= |s| && r == s[|s| - |r|..]
    ensures r != "" ==> !p(r[0])
    ensures s != "" && !p(s[0]) ==> r == s
  {
    if s != [] && p(s[0]) then TrimStart(s[1..], p) else s
  }

  lemma {:induction false} TrimEndDrops(s: string, p: char -> bool)
    ensures forall i | |TrimEnd(s, p)| <= i < |s| :: p(s[i])
  {
    if s != [] && p(s[|s| - 1]) {
      TrimEndDrops(s[..|s| - 1], p);
    }
  }

  lemma {:induction false} TrimStartDrops(s: string, p: char -> bool)
    ensures forall i | 0 <= i < |s| - |TrimStart(s, p)| :: p(s[i])
  {
    if s != [] && p(s[0]) {
      TrimStartDrops(s[1..], p);
      forall i | 0 <= i < |s| - |TrimStart(s, p)| ensures p(s[i]) {
        assert i != 0 ==> s[i] == s[1..][i - 1];
      }
    }
  }

  // ---------------------------------------------------------------------------
  // Truncation
  // ---------------------------------------------------------------------------

  /** As many whole characters of `s` as fit in `max` bytes. */
  function TakeBytes(s: string, max: nat): (r: string)
    ensures r <= s
    ensures |Encode(s)| <= max ==> r == s
    ensures |Encode(r)| <= max
  {
    if s == [] || max < Width(s[0]) then []
    else
      var rest := TakeBytes(s[1..], max - Width(s[0]));
      assert ([s[0]] + rest)[1..] == rest;
      [s[0]] + rest
  }

  /** The cut loses nothing that would have fitted: no longer byte prefix of `s` within the limit is
      valid UTF-8, and a cut that happens at all comes at most three bytes before the limit. */
  lemma {:induction false} TakeBytesIsLongest(s: string, max: nat)
    ensures Encode(TakeBytes(s, max)) <= Encode(s)
    ensures forall k | |Encode(TakeBytes(s, max))| < k <= max && k <= |Encode(s)| :: Decode(Encode(s)[..k]).None?
    ensures max < |Encode(s)| ==> max <= |Encode(TakeBytes(s, max))| + 3
  {
    if s == [] {
    } else if max < Width(s[0]) {
      forall k | 0 < k <= max && k <= |Encode(s)| ensures Decode(Encode(s)[..k]).None? {
        InsideFirstChar(s, k);
      }
    } else {
      var max' := max - Width(s[0]);
      var kept := TakeBytes(s[1..], max');
      TakeBytesIsLongest(s[1..], max');
      assert ([s[0]] + kept)[1..] == kept;
      forall k | Width(s[0]) + |Encode(kept)| < k <= max && k <= |Encode(s)| ensures Decode(Encode(s)[..k]).None? {
        assert Decode(Encode(s[1..])[..k - Width(s[0])]).None?;
        PrefixOneCharLater(s, k);
      }
    }
  }

  lemma InsideFirstChar(s: string, k: nat)
    requires s != [] && 0 < k < Width(s[0])
    ensures k <= |Encode(s)| && Decode(Encode(s)[..k]).None?
  {
    assert Encode(s)[k] == EncodeChar(s[0])[k];
    BoundaryIffValidPrefix(s, k);
  }

  lemma NoBoundaryNoText(s: string, k: nat)
    requires k <= |Encode(s)|
    ensures Decode(Encode(s)[..k]).None? <==> !IsBoundary(Encode(s), k)
  {
    BoundaryIffValidPrefix(s, k);
  }

  lemma PrefixOneCharLater(s: string, k: nat)
    requires s != [] && Width(s[0]) < k <= |Encode(s)|
    requires Decode(Encode(s[1..])[..k - Width(s[0])]).None?
    ensures Decode(Encode(s)[..k]).None?
  {
    var rest, k' := Encode(s[1..]), k - Width(s[0]);
    assert !IsBoundary(rest, k') by {
      NoBoundaryNoText(s[1..], k');
    }
    assert !IsBoundary(Encode(s), k) by {
      BoundaryOneCharLater(EncodeChar(s[0]), rest, k');
    }
    NoBoundaryNoText(s, k);
  }

  lemma BoundaryOneCharLater(first: seq<byte>, rest: seq<byte>, k: nat)
    requires 0 < k <= |rest|
    ensures IsBoundary(first + rest, |first| + k) <==> IsBoundary(rest, k)
  {
  }

  /** The valid byte prefix at a boundary not past `max`, with none in between, is the one `TakeBytes` keeps. */
  lemma LongestIsTakeBytes(s: string, max: nat, end: nat)
    requires end <= max < |Encode(s)| && IsBoundary(Encode(s), end)
    requires forall k: nat | end < k <= max :: !IsBoundary(Encode(s), k)
    ensures Decode(Encode(s)[..end]) == Some(TakeBytes(s, max))
  {
    var kept := TakeBytes(s, max);
    var n := |Encode(kept)|;
    TakeBytesIsLongest(s, max);
    BoundaryIffValidPrefix(s, end);
    BoundaryIffValidPrefix(s, n);
    DecodeOfEncode(kept);
    assert Encode(s)[..n] == Encode(kept);
    BoundaryIffValidPrefix(s, n);
    assert n == end;
  }

  /** `truncate_to_bytes`: step back from the limit to the nearest character boundary. */
  method TruncateToBytes(s: string, maxBytes: nat) returns (r: string)
    ensures r == TakeBytes(s, maxBytes)
  {
    var bytes := Encode(s);
    if |bytes| <= maxBytes {
      return s;
    }
    var end: nat := maxBytes;
    while 0 < end && !IsBoundary(bytes, end)
      invariant 0 <= end <= maxBytes
      invariant forall k: nat | end < k <= maxBytes :: !IsBoundary(bytes, k)
    {
      end := end - 1;
    }
    LongestIsTakeBytes(s, maxBytes, end);
    r := Decode(bytes[..end]).value;
  }

  // ---------------------------------------------------------------------------
  // Paths (Unix rules of std::path)
  // ---------------------------------------------------------------------------

  function Replace(s: string, from: char, to: char): (r: string)
    ensures |r| == |s| && forall i | 0 <= i < |s| :: r[i] == if s[i] == from then to else s[i]
    ensures from !in s ==> r == s
  {
    if s == [] then [] else [if s[0] == from then to else s[0]] + Replace(s[1..], from, to)
  }

  /** What follows the last '/'. */
  function LastSegment(path: string): (r: string)
    ensures |r| <= |path| && r == path[|path| - |r|..]
    ensures '/' !in r && ('/' !in path ==> r == path)
    ensures |r| < |path| ==> path[|path| - |r| - 1] == '/'
  {
    if path == [] || path[|path| - 1] == '/' then [] else LastSegment(path[..|path| - 1]) + [path[|path| - 1]]
  }

  /** `Path::file_name`: the last component once empty and inner "." components are dropped, unless it is
      "..", the root, or a leading ".". */
  function FileName(path: string): Option<string>
    decreases |path|
  {
    var seg := LastSegment(path);
    if |seg| == |path| then
      if seg == [] || seg == "." || seg == ".." then None else Some(seg)
    else if seg == [] || seg == "." then FileName(path[..|path| - |seg| - 1])
    else if seg == ".." then None
    else Some(seg)
  }

  lemma {:induction false} LastSegmentAfter(dir: string, name: string)
    requires '/' !in name
    ensures LastSegment(dir + "/" + name) == name
  {
    var path := dir + "/" + name;
    if name != [] {
      var init := name[..|name| - 1];
      LastSegmentAfter(dir, init);
      assert path[..|path| - 1] == dir + "/" + init;
      assert path[|path| - 1] == name[|name| - 1];
    }
  }

  /** Every path is a name without separators, or one after a directory; this is what its file name is. */
  lemma FileNameOfPath(dir: string, name: string)
    requires '/' !in name
    ensures FileName(name) == if name == "" || name == "." || name == ".." then None else Some(name)
    ensures FileName(dir + "/" + name)
      == if name == "" || name == "." then FileName(dir) else if name == ".." then None else Some(name)
  {
    var path := dir + "/" + name;
    LastSegmentAfter(dir, name);
    assert path[..|path| - |name| - 1] == dir;
  }

  /** The index of the last '.', or -1. */
  function LastDot(s: string): (i: int)
    ensures -1 <= i < |s|
    ensures 0 <= i ==> s[i] == '.'
    ensures forall j | i < j < |s| :: s[j] != '.'
  {
    if s == [] then -1 else if s[|s| - 1] == '.' then |s| - 1 else LastDot(s[..|s| - 1])
  }

  /** `Path::file_stem(..).unwrap_or(path)`: the file name without its extension. */
  function FileStem(path: string): string {
    match FileName(path)
    case None => path
    case Some(name) => if LastDot(name) <= 0 then name else name[..LastDot(name)]
  }

  // ---------------------------------------------------------------------------
  // File names
  // ---------------------------------------------------------------------------

  function AsciiUpper(c: char): char {
    if 'a' <= c <= 'z' then c - 'a' + 'A' else c
  }

  /** `str::to_uppercase` maps each character on its own to a string; on ASCII it is the usual mapping. */
  ghost predicate IsUppercase(upper: char -> string) {
    forall c: char | c < '\U{0080}' :: upper(c) == [AsciiUpper(c)]
  }

  function Uppercase(s: string, upper: char -> string): string {
    if s == [] then [] else upper(s[0]) + Uppercase(s[1..], upper)
  }

  /** The Windows device names CON, PRN, AUX, NUL, COM0..COM9 and LPT0..LPT9. */
  predicate IsReservedName(u: string) {
    || u == "CON" || u == "PRN" || u == "AUX" || u == "NUL"
    || (|u| == 4 && (u[..3] == "COM" || u[..3] == "LPT") && '0' <= u[3] <= '9')
  }

  predicate HasReservedStem(name: string, upper: char -> string) {
    IsReservedName(Uppercase(FileStem(name), upper))
  }

  function ReservedTest(upper: char -> string): string -> bool {
    (name: string) => HasReservedStem(name, upper)
  }

  function Basename(s: string): string {
    match FileName(Replace(s, '\\', '/'))
    case None => s
    case Some(name) => name
  }

  function Cut(s: string, drop: char -> bool, max: nat): string { TrimEnd(TakeBytes(s, max), drop) }

  /** Steps 2 to 4: filter, truncate, trim. */
  function Cleaned(base: string, keep: char -> bool, drop: char -> bool, max: nat): string {
    Cut(Select(base, keep), drop, max)
  }

  /** Step 5: keep clear of the empty name and of reserved names. */
  function Guarded(name: string, reserved: string -> bool): string {
    if name == "" then "file" else if reserved(name) then "_" + name else name
  }

  function SanitizeFilename(s: string, upper: char -> string): string {
    Guarded(Cleaned(Basename(s), FilenameSafe, DotOrSpace, MAX_FILENAME_BYTES), ReservedTest(upper))
  }

  /** What the file system can take: safe characters only and no trailing dot or space. */
  predicate Tidy(name: string) {
    name != "" && All(name, FilenameSafe) && !DotOrSpace(name[|name| - 1])
  }

  lemma SafeHasNoSeparator(name: string, c: char)
    requires All(name, FilenameSafe) && (c == '/' || c == '\\')
    ensures c !in name
  {
    assert !FilenameSafe(c);
  }

  lemma SegmentIsItsOwnFileName(name: string)
    requires '/' !in name && '\\' !in name && name != [] && name != "." && name != ".."
    ensures Basename(name) == name && FileName(name) == Some(name)
  {
  }

  lemma TidyIsItsOwnBasename(name: string)
    requires Tidy(name)
    ensures Basename(name) == name && FileName(name) == Some(name)
  {
    SafeHasNoSeparator(name, '/');
    SafeHasNoSeparator(name, '\\');
    assert name != "." && name != "..";
    SegmentIsItsOwnFileName(name);
  }

  lemma ReservedNamesStartWithCapitals(u: string)
    requires u != [] && (u[0] == '_' || u[0] == 'F')
    ensures !IsReservedName(u)
  {
    if |u| == 4 {
      assert u[..3][0] == u[0];
    }
  }

  lemma PlainFileName(name: string)
    requires '/' !in name && name != [] && name[0] != '.'
    ensures FileName(name) == Some(name)
  {
    var seg := LastSegment(name);
    assert seg == name;
  }

  lemma StemStartsTheSame(name: string)
    requires FileName(name) == Some(name) && name != [] && name[0] != '.'
    ensures FileStem(name) != [] && FileStem(name)[0] == name[0]
  {
  }

  lemma UppercaseStart(s: string, upper: char -> string)
    requires IsUppercase(upper) && s != [] && s[0] < '\U{0080}'
    ensures Uppercase(s, upper) != [] && Uppercase(s, upper)[0] == AsciiUpper(s[0])
  {
  }

  /** A name that starts with '_' or 'f' has no reserved stem. */
  lemma FirstLetterDecides(name: string, upper: char -> string)
    requires '/' !in name && name != [] && (name[0] == '_' || name[0] == 'f') && IsUppercase(upper)
    ensures !HasReservedStem(name, upper)
  {
    PlainFileName(name);
    StemStartsTheSame(name);
    var stem := FileStem(name);
    UppercaseStart(stem, upper);
    ReservedNamesStartWithCapitals(Uppercase(stem, upper));
  }

  lemma {:induction false} AsciiLength(s: string)
    requires forall i | 0 <= i < |s| :: s[i] < '\U{0080}'
    ensures |Encode(s)| == |s|
  {
    if s != [] {
      AsciiLength(s[1..]);
    }
  }

  lemma {:induction false} EncodePrefixShorter(a: string, b: string)
    requires a <= b
    ensures |Encode(a)| <= |Encode(b)|
  {
    EncodeConcat(a, b[|a|..]);
    assert a + b[|a|..] == b;
  }

  /** What the fallback "file" and the '_' prefix rely on. */
  ghost predicate Workable(keep: char -> bool, drop: char -> bool, reserved: string -> bool, fallback: string) {
    && keep('_') && All(fallback, keep) && !drop('e') && !reserved(fallback)
    && PrefixFrees(keep, reserved)
  }

  ghost predicate PrefixFrees(keep: char -> bool, reserved: string -> bool) {
    forall name | All(name, keep) && name != "" && name[0] == '_' :: !reserved(name)
  }

  lemma PrefixAll(a: string, b: string, p: char -> bool)
    requires a <= b && All(b, p)
    ensures All(a, p)
  {
    forall i | 0 <= i < |a| ensures p(a[i]) {
      assert a[i] == b[i];
    }
  }

  lemma CutShape(s: string, drop: char -> bool, max: nat)
    ensures var t := Cut(s, drop, max); t <= s && (t != "" ==> !drop(t[|t| - 1])) && |Encode(t)| <= max
    ensures s != "" && !drop(s[|s| - 1]) && |Encode(s)| <= max ==> Cut(s, drop, max) == s
  {
    var truncated := TakeBytes(s, max);
    EncodePrefixShorter(TrimEnd(truncated, drop), truncated);
  }

  lemma CleanedShape(base: string, keep: char -> bool, drop: char -> bool, max: nat)
    ensures var t := Cleaned(base, keep, drop, max);
      All(t, keep) && (t != "" ==> !drop(t[|t| - 1])) && |Encode(t)| <= max
  {
    var filtered := Select(base, keep);
    CutShape(filtered, drop, max);
    PrefixAll(Cut(filtered, drop, max), filtered, keep);
  }

  /** What is clean already is only cut, and not even that when it fits. */
  lemma CleanedAgain(r: string, keep: char -> bool, drop: char -> bool, max: nat)
    requires r != "" && All(r, keep) && !drop(r[|r| - 1])
    ensures Cleaned(r, keep, drop, max) <= r
    ensures |Encode(r)| <= max ==> Cleaned(r, keep, drop, max) == r
  {
    assert Select(r, keep) == r;
    CutShape(r, drop, max);
  }

  lemma GuardedShape(t: string, keep: char -> bool, drop: char -> bool, reserved: string -> bool)
    requires Workable(keep, drop, reserved, "file")
    requires All(t, keep) && (t != "" ==> !drop(t[|t| - 1]))
    ensures var r := Guarded(t, reserved);
      r != "" && All(r, keep) && !drop(r[|r| - 1]) && !reserved(r) && (r == t || r == "file" || (r == "_" + t && reserved(t)))
  {
  }

  lemma PrefixedLength(t: string)
    ensures |Encode("_" + t)| == 1 + |Encode(t)| && ("_" + t)[1..] == t
  {
    var all := "_" + t;
    assert all[1..] == t && all[0] == '_';
    assert |EncodeChar(all[0])| == 1;
  }

  /** The pipeline over any character classes and any test for reserved names. */
  lemma PipelineShape(base: string, keep: char -> bool, drop: char -> bool, reserved: string -> bool, max: nat)
    requires Workable(keep, drop, reserved, "file") && 4 <= max
    ensures var r := Guarded(Cleaned(base, keep, drop, max), reserved);
      && r != "" && All(r, keep) && !drop(r[|r| - 1]) && !reserved(r)
      && |Encode(r)| <= max + 1
      && (max < |Encode(r)| ==> r[0] == '_' && reserved(r[1..]))
  {
    var t := Cleaned(base, keep, drop, max);
    CleanedShape(base, keep, drop, max);
    GuardedShape(t, keep, drop, reserved);
    AsciiLength("file");
    PrefixedLength(t);
  }

  /** A fitting result is kept; a longer one is cut to one that starts the same, or to the fallback. */
  lemma PipelineAgain(r: string, keep: char -> bool, drop: char -> bool, reserved: string -> bool, max: nat)
    requires r != "" && All(r, keep) && !drop(r[|r| - 1]) && !reserved(r)
    requires max < |Encode(r)| ==> r[0] == '_'
    requires PrefixFrees(keep, reserved)
    ensures Guarded(Cleaned(r, keep, drop, max), reserved) == r <==> |Encode(r)| <= max
  {
    if |Encode(r)| <= max {
      CleanedAgain(r, keep, drop, max);
    } else {
      var t := Cleaned(r, keep, drop, max);
      CleanedShape(r, keep, drop, max);
      CleanedAgain(r, keep, drop, max);
      assert t != "" ==> t[0] == '_';
    }
  }

  lemma NotReserved(name: string, upper: char -> string)
    requires All(name, FilenameSafe) && name != "" && (name[0] == '_' || name[0] == 'f') && IsUppercase(upper)
    ensures !HasReservedStem(name, upper)
  {
    SafeHasNoSeparator(name, '/');
    FirstLetterDecides(name, upper);
  }

  lemma FileIsSafe()
    ensures FilenameSafe('_') && All("file", FilenameSafe) && !DotOrSpace('e')
  {
  }

  lemma FallbackWorks(fallback: string, upper: char -> string)
    requires IsUppercase(upper) && All(fallback, FilenameSafe) && fallback != "" && fallback[0] == 'f'
    requires FilenameSafe('_') && !DotOrSpace('e')
    ensures Workable(FilenameSafe, DotOrSpace, ReservedTest(upper), fallback)
  {
    NotReserved(fallback, upper);
    forall name | All(name, FilenameSafe) && name != "" && name[0] == '_' ensures !ReservedTest(upper)(name) {
      NotReserved(name, upper);
    }
  }

  /** `sanitize_filename` reaches a normal form: never empty, only safe characters, no trailing dot or
      space, no device name, at most 201 bytes; 201 only for a device name that got its '_'. Sanitizing
      again changes nothing exactly when the result fits in 200 bytes. */
  lemma FilenameNormalForm(s: string, upper: char -> string)
    requires IsUppercase(upper)
    ensures var r, reserved := SanitizeFilename(s, upper), ReservedTest(upper);
      && Tidy(r) && !reserved(r)
      && |Encode(r)| <= MAX_FILENAME_BYTES + 1
      && (MAX_FILENAME_BYTES < |Encode(r)| ==> r[0] == '_' && reserved(r[1..]))
      && (SanitizeFilename(r, upper) == r <==> |Encode(r)| <= MAX_FILENAME_BYTES)
  {
    var reserved := ReservedTest(upper);
    FileIsSafe();
    FallbackWorks("file", upper);
    NormalFormOver(s, upper, FilenameSafe, DotOrSpace, reserved);
  }

  lemma NormalFormOver(s: string, upper: char -> string, keep: char -> bool, drop: char -> bool, reserved: string -> bool)
    requires keep == FilenameSafe && drop == DotOrSpace && reserved == ReservedTest(upper)
    requires Workable(keep, drop, reserved, "file")
    ensures var r := SanitizeFilename(s, upper);
      && r != "" && All(r, keep) && !drop(r[|r| - 1]) && !reserved(r)
      && |Encode(r)| <= MAX_FILENAME_BYTES + 1
      && (MAX_FILENAME_BYTES < |Encode(r)| ==> r[0] == '_' && reserved(r[1..]))
      && (SanitizeFilename(r, upper) == r <==> |Encode(r)| <= MAX_FILENAME_BYTES)
  {
    var r := SanitizeFilename(s, upper);
    PipelineShape(Basename(s), keep, drop, reserved, MAX_FILENAME_BYTES);
    TidyIsItsOwnBasename(r);
    PipelineAgain(r, keep, drop, reserved, MAX_FILENAME_BYTES);
  }

  // ---------------------------------------------------------------------------
  // Device names
  // ---------------------------------------------------------------------------

  function FirstChars(s: string, max: nat): (r: string)
    ensures r <= s && |r| == if |s| <= max then |s| else max
  {
    if |s| <= max then s else s[..max]
  }

  function Trim(s: string, white: char -> bool): string { TrimEnd(TrimStart(s, white), white) }

  /** Trim, and fall back to `empty`. */
  function Trimmed(s: string, white: char -> bool, empty: string): string {
    if Trim(s, white) == "" then empty else Trim(s, white)
  }

  /** Filter, keep the first `max` code points, trim, and fall back to `empty`. */
  function Label(s: string, keep: char -> bool, white: char -> bool, max: nat, empty: string): string {
    Trimmed(FirstChars(Select(s, keep), max), white, empty)
  }

  function SanitizeDeviceName(s: string): string {
    Label(s, Printable, IsWhitespace, MAX_DEVICE_NAME_CODEPOINTS, "<unnamed>")
  }

  lemma SuffixAll(a: string, b: string, p: char -> bool)
    requires |a| <= |b| && a == b[|b| - |a|..] && All(b, p)
    ensures All(a, p)
  {
    forall i | 0 <= i < |a| ensures p(a[i]) {
      assert a[i] == b[|b| - |a| + i];
    }
  }

  lemma TrimKeepsAll(s: string, keep: char -> bool, white: char -> bool)
    requires All(s, keep)
    ensures All(Trim(s, white), keep) && |Trim(s, white)| <= |s|
  {
    var start := TrimStart(s, white);
    SuffixAll(start, s, keep);
    PrefixAll(TrimEnd(start, white), start, keep);
  }

  lemma TrimmedEnds(s: string, white: char -> bool)
    requires Trim(s, white) != ""
    ensures !white(Trim(s, white)[0]) && !white(Trim(s, white)[|Trim(s, white)| - 1])
  {
    var start := TrimStart(s, white);
    assert TrimEnd(start, white)[0] == start[0];
  }

  ghost predicate IsLabel(r: string, keep: char -> bool, white: char -> bool, max: nat) {
    r != "" && |r| <= max && All(r, keep) && !white(r[0]) && !white(r[|r| - 1])
  }

  lemma TrimmedIsLabel(s: string, keep: char -> bool, white: char -> bool, max: nat, empty: string)
    requires All(s, keep) && |s| <= max && IsLabel(empty, keep, white, max)
    ensures IsLabel(Trimmed(s, white, empty), keep, white, max)
  {
    var t := Trim(s, white);
    TrimKeepsAll(s, keep, white);
    if t != "" {
      TrimmedEnds(s, white);
      assert IsLabel(t, keep, white, max);
      assert Trimmed(s, white, empty) == t;
    } else {
      assert Trimmed(s, white, empty) == empty;
    }
  }

  lemma LabelStays(r: string, keep: char -> bool, white: char -> bool, max: nat, empty: string)
    requires IsLabel(r, keep, white, max)
    ensures Trimmed(FirstChars(r, max), white, empty) == r
  {
  }

  lemma LabelNormalForm(s: string, keep: char -> bool, white: char -> bool, max: nat, empty: string)
    requires IsLabel(empty, keep, white, max)
    ensures IsLabel(Label(s, keep, white, max, empty), keep, white, max)
    ensures Label(Label(s, keep, white, max, empty), keep, white, max, empty) == Label(s, keep, white, max, empty)
  {
    var filtered := Select(s, keep);
    var taken := FirstChars(filtered, max);
    PrefixAll(taken, filtered, keep);
    TrimmedIsLabel(taken, keep, white, max, empty);
    LabelStays(Trimmed(taken, white, empty), keep, white, max, empty);
  }

  /** `sanitize_device_name` is non-empty, at most 64 code points, printable, trimmed, and idempotent. */
  lemma DeviceNameNormalForm(s: string)
    ensures var r := SanitizeDeviceName(s);
      && r != "" && |r| <= MAX_DEVICE_NAME_CODEPOINTS && All(r, Printable)
      && !IsWhitespace(r[0]) && !IsWhitespace(r[|r| - 1])
      && SanitizeDeviceName(r) == r
  {
    LabelNormalForm(s, Printable, IsWhitespace, MAX_DEVICE_NAME_CODEPOINTS, "<unnamed>");
  }

  // ---------------------------------------------------------------------------
  // What is kept
  // ---------------------------------------------------------------------------

  /** What trimming leaves is a stretch of the text with nothing but white space around it. */
  lemma TrimKeeps(s: string, white: char -> bool) returns (from: nat, to: nat)
    ensures from <= to <= |s| && Trim(s, white) == s[from..to]
    ensures forall i | 0 <= i < |s| && !(from <= i < to) :: white(s[i])
  {
    var start := TrimStart(s, white);
    TrimStartDrops(s, white);
    TrimEndDrops(start, white);
    from := |s| - |start|;
    to := from + |TrimEnd(start, white)|;
    assert start == s[from..];
    forall i | to <= i < |s| ensures white(s[i]) {
      assert start[i - from] == s[i];
    }
  }

  lemma SliceOfPrefix<T>(a: seq<T>, b: seq<T>, from: nat, to: nat)
    requires a <= b && from <= to <= |a|
    ensures a[from..to] == b[from..to]
    ensures forall i | 0 <= i < |a| :: a[i] == b[i]
  {
  }

  lemma TrimmedKeeps(kept: string, white: char -> bool, max: nat, empty: string) returns (from: nat, to: nat)
    ensures from <= to <= |kept| && to <= max
    ensures forall i | 0 <= i < |kept| && i < max && !(from <= i < to) :: white(kept[i])
    ensures Trimmed(FirstChars(kept, max), white, empty) == if from == to then empty else kept[from..to]
  {
    var first := FirstChars(kept, max);
    from, to := TrimKeeps(first, white);
    SliceOfPrefix(first, kept, from, to);
  }

  /** A device name keeps its first 64 printable characters, in order (`Selection.KeepsOrder`), but for white space
      around them. */
  lemma DeviceNameKeeps(s: string) returns (from: nat, to: nat)
    ensures var kept := Select(s, Printable);
      && from <= to <= |kept| && to <= 64
      && (forall i | 0 <= i < |kept| && i < 64 && !(from <= i < to) :: IsWhitespace(kept[i]))
      && SanitizeDeviceName(s) == if from == to then "<unnamed>" else kept[from..to]
  {
    from, to := TrimmedKeeps(Select(s, Printable), IsWhitespace, MAX_DEVICE_NAME_CODEPOINTS, "<unnamed>");
  }

  lemma CutKeeps(s: string, drop: char -> bool, max: nat) returns (n: nat, m: nat)
    ensures n <= m <= |s| && TakeBytes(s, max) == s[..m] && Cut(s, drop, max) == s[..n]
    ensures forall i | n <= i < m :: drop(s[i])
  {
    var fits := TakeBytes(s, max);
    TrimEndDrops(fits, drop);
    n, m := |TrimEnd(fits, drop)|, |fits|;
    assert fits[..n] == s[..n];
  }

  /** A file name keeps, of the last path component, the safe characters in order: `m` of them fit, and of these all
      but trailing dots and spaces; only an empty or a reserved name is changed further. */
  lemma FilenameKeeps(s: string, upper: char -> string) returns (n: nat, m: nat)
    ensures var kept := Select(Basename(s), FilenameSafe);
      && n <= m <= |kept| && TakeBytes(kept, 200) == kept[..m]
      && (forall i | n <= i < m :: kept[i] == '.' || kept[i] == ' ')
      && SanitizeFilename(s, upper)
           == if n == 0 then "file" else if HasReservedStem(kept[..n], upper) then "_" + kept[..n] else kept[..n]
  {
    n, m := CutKeeps(Select(Basename(s), FilenameSafe), DotOrSpace, MAX_FILENAME_BYTES);
  }

  /** The stem that is compared with the device names ends before the last dot, unless that comes first. */
  lemma StemOf(name: string, i: nat)
    requires '/' !in name && name != "" && name != "." && name != ".." && i <= |name|
    requires forall j | i < j < |name| :: name[j] != '.'
    requires if i < |name| then name[i] == '.' else '.' !in name
    ensures FileStem(name) == if i == 0 then name else name[..i]
  {
    FileNameOfPath("", name);
    var d := LastDot(name);
    assert i < |name| ==> d == i;
    assert i == |name| ==> d == -1;
  }
}
