/** The communication log: a bounded first-in first-out buffer of entries,
    the settings for where saved logs go and how much space they may take,
    and the pure pieces of saving (text, file name, pruning old files). */
module CommLog {
  import opened Common

  const MAX_ENTRIES: nat := 1000
  const DEFAULT_MAX_STORAGE_MB: int := 10
  const MAX_STORAGE_MB_LIMIT: int := 100

  /** One log line; `timestamp` is the wall-clock time in milliseconds when it
      was added, given by the caller. */
  datatype Entry = Entry(message: string, isServer: bool, isSuccess: Option<bool>, timestamp: int)

  // ------------------------------------------------------------------
  // The buffer

  /** The buffer after `add`: the entry goes last and, past 1000 entries, the
      oldest one is dropped. */
  function Appended(buffer: seq<Entry>, e: Entry): seq<Entry> {
    var b := buffer + [e];
    if |b| > MAX_ENTRIES then b[1..] else b
  }

  /** `add` keeps the buffer within 1000 entries, puts the new entry last and,
      when the buffer was full, drops exactly the oldest one. */
  lemma AppendedBounded(buffer: seq<Entry>, e: Entry)
    requires |buffer| <= MAX_ENTRIES
    ensures |Appended(buffer, e)| <= MAX_ENTRIES
    ensures Appended(buffer, e)[|Appended(buffer, e)| - 1] == e
    ensures |buffer| < MAX_ENTRIES ==> Appended(buffer, e) == buffer + [e]
    ensures |buffer| == MAX_ENTRIES ==> Appended(buffer, e) == buffer[1..] + [e]
  {
  }

  /** The buffer after adding the entries of `es` one by one. */
  function AppendAll(buffer: seq<Entry>, es: seq<Entry>): seq<Entry>
    decreases |es|
  {
    if |es| == 0 then buffer else AppendAll(Appended(buffer, es[0]), es[1..])
  }

  /** The last n elements of s (all of s when it is shorter). */
  function LastN<T>(s: seq<T>, n: nat): (r: seq<T>)
    ensures |r| == if |s| <= n then |s| else n
  {
    if |s| <= n then s else s[|s| - n..]
  }

  /** However many entries are added, the buffer holds the newest 1000 of
      everything added, oldest first. */
  lemma {:induction false} AppendAllKeepsNewest(buffer: seq<Entry>, es: seq<Entry>)
    requires |buffer| <= MAX_ENTRIES
    ensures AppendAll(buffer, es) == LastN(buffer + es, MAX_ENTRIES)
    decreases |es|
  {
    if |es| == 0 {
      assert buffer + es == buffer;
    } else {
      var b := Appended(buffer, es[0]);
      AppendedBounded(buffer, es[0]);
      AppendAllKeepsNewest(b, es[1..]);
      var all := buffer + es;
      assert all == (buffer + [es[0]]) + es[1..];
      if |buffer| + 1 > MAX_ENTRIES {
        assert b + es[1..] == all[1..];
        assert LastN(all[1..], MAX_ENTRIES) == LastN(all, MAX_ENTRIES);
      } else {
        assert b + es[1..] == all;
      }
    }
  }

  // ------------------------------------------------------------------
  // Saved text and file name

  function Messages(entries: seq<Entry>): (r: seq<string>)
    ensures |r| == |entries|
    ensures forall i :: 0 <= i < |entries| ==> r[i] == entries[i].message
  {
    seq(|entries|, i requires 0 <= i < |entries| => entries[i].message)
  }

  /** The text `saveToStream` writes: the messages joined by single newlines. */
  function LogText(entries: seq<Entry>): string {
    Join(Messages(entries), "\n")
  }

  /** An empty log saves as empty text; one entry saves as its message alone
      (no trailing newline); and when no message holds a newline, splitting the
      text at newlines gives the messages back. */
  lemma LogTextReadsBack(entries: seq<Entry>)
    ensures |entries| == 0 ==> LogText(entries) == ""
    ensures |entries| == 1 ==> LogText(entries) == entries[0].message
    ensures |entries| >= 1 && (forall i :: 0 <= i < |entries| ==> '\n' !in entries[i].message) ==>
      Split(LogText(entries), '\n') == Messages(entries)
  {
    if |entries| >= 1 && (forall i :: 0 <= i < |entries| ==> '\n' !in entries[i].message) {
      SplitJoin(Messages(entries), '\n');
    }
  }

  /** `buildFileName(scenario)` with the formatted time `stamp`. */
  function BuildFileName(scenario: Option<string>, stamp: string): string {
    var name := if scenario.Some? then scenario.value else "log";
    ReplaceChar(name, ' ', '_') + "_" + stamp + ".log"
  }

  /** The file name starts with the scenario name (or "log") with every space
      turned into '_', and always ends in ".log". */
  lemma BuildFileNameShape(scenario: Option<string>, stamp: string)
    ensures var n := (if scenario.Some? then scenario.value else "log");
      StartsWith(BuildFileName(scenario, stamp), ReplaceChar(n, ' ', '_') + "_")
      && ' ' !in BuildFileName(scenario, stamp)[..|n|]
      && EndsWith(BuildFileName(scenario, stamp), ".log")
  {
    var n := if scenario.Some? then scenario.value else "log";
    var r := BuildFileName(scenario, stamp);
    assert r[..|n|] == ReplaceChar(n, ' ', '_');
    assert r[|r| - 4..] == ".log";
  }

  // ------------------------------------------------------------------
  // Log path

  predicate IsPathChar(c: char) {
    IsAsciiLetterOrDigit(c) || c == '.' || c == '_' || c == '-'
  }

  predicate AllPathChars(s: string) {
    forall i :: 0 <= i < |s| ==> IsPathChar(s[i])
  }

  /** `replace(Regex("[^A-Za-z0-9._-]"), "")` */
  function KeepPathChars(s: string): (r: string)
    ensures AllPathChars(r)
    ensures |r| <= |s|
  {
    if |s| == 0 then ""
    else (if IsPathChar(s[0]) then [s[0]] else []) + KeepPathChars(s[1..])
  }

  /** One segment as `sanitizePath` cleans it: trimmed, "" for "", "." and
      "..", otherwise only its path characters. */
  function CleanSegment(seg: string): (r: string)
    ensures AllPathChars(r)
  {
    var t := Trim(seg);
    if t == "" || t == "." || t == ".." then "" else KeepPathChars(t)
  }

  /** The segment pipeline of `sanitizePath`: clean each segment and drop
      those that became empty. */
  function CleanSegments(parts: seq<string>): (r: seq<string>)
    ensures forall i :: 0 <= i < |r| ==> |r[i]| > 0 && AllPathChars(r[i])
  {
    if |parts| == 0 then []
    else
      var c := CleanSegment(parts[0]);
      var rest := CleanSegments(parts[1..]);
      if c == "" then rest else [c] + rest
  }

  /** `sanitizePath(raw)` */
  function SanitizePath(raw: string): string {
    if IsBlank(raw) then "" else Join(CleanSegments(SplitOn(raw, {'/', '\\'})), "/")
  }

  /** Text made of path characters and single '/' separators, with none at
      either end. */
  predicate IsCleanPath(r: string) {
    && (forall i :: 0 <= i < |r| ==> r[i] == '/' || IsPathChar(r[i]))
    && (|r| > 0 ==> r[0] != '/' && r[|r| - 1] != '/')
    && (forall i :: 0 <= i < |r| - 1 ==> !(r[i] == '/' && r[i + 1] == '/'))
  }

  /** Joining non-empty segments of path characters with '/' gives a clean
      path, empty exactly when there are no segments. */
  lemma {:induction false} JoinSegmentsShape(segs: seq<string>)
    requires forall i :: 0 <= i < |segs| ==> |segs[i]| > 0 && AllPathChars(segs[i])
    ensures IsCleanPath(Join(segs, "/"))
    ensures |segs| > 0 <==> |Join(segs, "/")| > 0
  {
    if |segs| > 1 {
      JoinSegmentsShape(segs[1..]);
      var tail := Join(segs[1..], "/");
      var r := segs[0] + "/" + tail;
      assert Join(segs, "/") == r;
      assert forall i :: 0 <= i < |segs[0]| ==> r[i] == segs[0][i];
      assert r[|segs[0]|] == '/';
      assert forall i :: |segs[0]| < i < |r| ==> r[i] == tail[i - |segs[0]| - 1];
    }
  }

  /** A blank path sanitizes to ""; any other result consists of non-empty
      segments of `[A-Za-z0-9._-]` separated by single '/', which split back
      into exactly the cleaned segments. */
  lemma SanitizePathShape(raw: string)
    ensures IsBlank(raw) ==> SanitizePath(raw) == ""
    ensures IsCleanPath(SanitizePath(raw))
    ensures var segs := CleanSegments(SplitOn(raw, {'/', '\\'}));
      !IsBlank(raw) && |segs| > 0 ==> Split(SanitizePath(raw), '/') == segs
  {
    if !IsBlank(raw) {
      var segs := CleanSegments(SplitOn(raw, {'/', '\\'}));
      assert SanitizePath(raw) == Join(segs, "/");
      JoinSegmentsShape(segs);
      if |segs| > 0 {
        SlashFreeSegments(segs);
        SplitJoin(segs, '/');
      }
    }
  }

  lemma SlashFreeSegments(segs: seq<string>)
    requires forall i :: 0 <= i < |segs| ==> AllPathChars(segs[i])
    ensures forall i :: 0 <= i < |segs| ==> '/' !in segs[i]
  {
    assert !IsPathChar('/');
  }

  /** The cleaned segment list drops a segment that trims to "." or "..". */
  lemma DotSegmentsDropped(seg: string, rest: seq<string>)
    requires Trim(seg) == "." || Trim(seg) == ".."
    ensures CleanSegments([seg] + rest) == CleanSegments(rest)
  {
    assert ([seg] + rest)[1..] == rest;
  }

  lemma TrimUntouched(s: string)
    requires |s| > 0 && !IsWhitespace(s[0]) && !IsWhitespace(s[|s| - 1])
    ensures Trim(s) == s
  {
    assert TrimStart(s) == s;
  }

  /** A path without separators and without surrounding blanks is one segment:
      it sanitizes to its path characters, or to "" when it is "." or "..". */
  lemma SanitizeOneSegment(seg: string)
    requires |seg| > 0 && !IsWhitespace(seg[0]) && !IsWhitespace(seg[|seg| - 1])
    requires forall i :: 0 <= i < |seg| ==> seg[i] != '/' && seg[i] != '\\'
    ensures SanitizePath(seg) ==
      if seg == "." || seg == ".." then "" else KeepPathChars(seg)
  {
    assert !IsBlank(seg) by { assert !IsWhitespace(seg[0]); }
    calc {
      SanitizePath(seg);
      Join(CleanSegments(SplitOn(seg, {'/', '\\'})), "/");
      { UnseparatedSegment(seg); }
      Join(CleanSegments([seg]), "/");
      { CleanSegmentsOne(seg); }
      CleanSegment(seg);
      { CleanSegmentUntrimmed(seg); }
      if seg == "." || seg == ".." then "" else KeepPathChars(seg);
    }
  }

  /** A text without separators splits into itself alone. */
  lemma UnseparatedSegment(seg: string)
    requires forall i :: 0 <= i < |seg| ==> seg[i] != '/' && seg[i] != '\\'
    ensures SplitOn(seg, {'/', '\\'}) == [seg]
  {
    forall i | 0 <= i < |seg|
      ensures seg[i] !in {'/', '\\'}
    {
    }
    SplitOnNoSep(seg, {'/', '\\'});
  }

  /** A segment without surrounding blanks is cleaned without trimming. */
  lemma CleanSegmentUntrimmed(seg: string)
    requires |seg| > 0 && !IsWhitespace(seg[0]) && !IsWhitespace(seg[|seg| - 1])
    ensures CleanSegment(seg) == if seg == "." || seg == ".." then "" else KeepPathChars(seg)
  {
    TrimUntouched(seg);
  }

  /** A single segment yields its cleaned text, or nothing when that is empty. */
  lemma CleanSegmentsOne(seg: string)
    ensures Join(CleanSegments([seg]), "/") == CleanSegment(seg)
  {
    assert [seg][1..] == [];
  }

  /** A "." or ".." segment followed by a character that is neither a path
      character, a blank nor a separator sanitizes to the bare dots. */
  lemma SanitizeDotsTail(dots: string, c: char)
    requires dots == "." || dots == ".."
    requires !IsPathChar(c) && !IsWhitespace(c) && c != '/' && c != '\\'
    ensures SanitizePath(dots + [c]) == dots
  {
    var s := dots + [c];
    assert !IsWhitespace('.');
    SanitizeOneSegment(s);
    assert s != "." && s != "..";
    assert KeepPathChars(s) == dots by {
      KeepDotsTail(dots, c);
    }
  }

  lemma KeepDotsTail(dots: string, c: char)
    requires dots == "." || dots == ".."
    requires !IsPathChar(c)
    ensures KeepPathChars(dots + [c]) == dots
  {
    assert KeepPathChars([c]) == [];
    assert (['.'] + [c])[1..] == [c];
    assert KeepPathChars(['.'] + [c]) == ['.'];
    if dots == ".." {
      var s := dots + [c];
      assert s[1..] == ['.'] + [c];
    }
  }

  /** Sanitizing is not idempotent: a segment such as "..~" survives the
      "." / ".." filter, then loses its '~' and becomes "..", which a second
      pass drops altogether. */
  lemma SanitizeNotIdempotent(dots: string, c: char)
    requires dots == "." || dots == ".."
    requires !IsPathChar(c) && !IsWhitespace(c) && c != '/' && c != '\\'
    ensures SanitizePath(dots + [c]) != SanitizePath(SanitizePath(dots + [c]))
  {
    SanitizeDotsTail(dots, c);
    DotsSanitizeToEmpty(dots);
  }

  lemma DotsSanitizeToEmpty(dots: string)
    requires dots == "." || dots == ".."
    ensures SanitizePath(dots) == ""
  {
    assert !IsWhitespace('.');
    SanitizeOneSegment(dots);
  }

  // ------------------------------------------------------------------
  // Pruning old log files

  /** A file met while walking the log directory. `deletable` is whether
      deleting it succeeds. */
  datatype LogFile = LogFile(name: string, isFile: bool, lastModified: int, size: nat, deletable: bool)

  /** A regular file whose extension is "log" in any case. */
  predicate IsLogFile(f: LogFile) {
    f.isFile && EqualsIgnoreCase(SubstringAfterLast(f.name, '.'), "log")
  }

  predicate IsDeletable(f: LogFile) { f.deletable }

  predicate SortedByAge(fs: seq<LogFile>) {
    forall i, j :: 0 <= i < j < |fs| ==> fs[i].lastModified <= fs[j].lastModified
  }

  /** Insert f after every file that is not newer (keeps `sortedBy` stable). */
  function InsertByAge(f: LogFile, sorted: seq<LogFile>): (r: seq<LogFile>)
    requires SortedByAge(sorted)
    ensures |r| == |sorted| + 1
    ensures r[0] == f || (|sorted| > 0 && r[0] == sorted[0])
    ensures SortedByAge(r)
    ensures multiset(r) == multiset(sorted) + multiset{f}
  {
    if |sorted| == 0 then [f]
    else if f.lastModified < sorted[0].lastModified then
      ConsSortedByAge(f, sorted);
      [f] + sorted
    else
      var rest := InsertByAge(f, sorted[1..]);
      assert sorted == [sorted[0]] + sorted[1..];
      ConsSortedByAge(sorted[0], rest);
      [sorted[0]] + rest
  }

  /** A file no newer than the first of a sorted list can go in front of it. */
  lemma ConsSortedByAge(x: LogFile, rest: seq<LogFile>)
    requires SortedByAge(rest)
    requires |rest| == 0 || x.lastModified <= rest[0].lastModified
    ensures SortedByAge([x] + rest)
  {
    var r := [x] + rest;
    forall i, j | 0 <= i < j < |r|
      ensures r[i].lastModified <= r[j].lastModified
    {
      if i == 0 {
        assert r[j] == rest[j - 1];
        assert rest[0].lastModified <= rest[j - 1].lastModified;
      } else {
        assert r[i] == rest[i - 1] && r[j] == rest[j - 1];
      }
    }
  }

  /** `sortedBy { it.lastModified() }`: the same files, oldest first. */
  function SortByAge(fs: seq<LogFile>): (r: seq<LogFile>)
    ensures SortedByAge(r)
    ensures multiset(r) == multiset(fs)
  {
    if |fs| == 0 then []
    else
      assert fs == fs[..|fs| - 1] + [fs[|fs| - 1]];
      InsertByAge(fs[|fs| - 1], SortByAge(fs[..|fs| - 1]))
  }

  /** `sumOf { it.length() }` */
  function TotalSize(fs: seq<LogFile>): int {
    if |fs| == 0 then 0 else TotalSize(fs[..|fs| - 1]) + fs[|fs| - 1].size
  }

  /** The bytes freed by the deletions that succeeded among the first n files. */
  function FreedSize(files: seq<LogFile>, n: nat): int
    requires n <= |files|
  {
    if n == 0 then 0
    else FreedSize(files, n - 1) + (if files[n - 1].deletable then files[n - 1].size else 0)
  }

  /** The files actually deleted among the first n tried. */
  function DeletedAmong(files: seq<LogFile>, n: nat): (r: seq<LogFile>)
    requires n <= |files|
    ensures forall i :: 0 <= i < |r| ==> r[i].deletable && r[i] in files[..n]
  {
    if n == 0 then []
    else
      var before := DeletedAmong(files, n - 1);
      assert forall x :: x in files[..n - 1] ==> x in files[..n];
      before + (if files[n - 1].deletable then [files[n - 1]] else [])
  }

  /** Where the pruning loop stops, started at `index` with running `total`. */
  function PruneStop(files: seq<LogFile>, maxBytes: int, total: int, index: nat): (k: nat)
    requires index <= |files|
    ensures index <= k <= |files|
    decreases |files| - index
  {
    if total > maxBytes && index < |files| - 1 then
      PruneStop(files, maxBytes, if files[index].deletable then total - files[index].size else total, index + 1)
    else index
  }

  /** The pruning loop, reaching `index` with the total it holds there, tries
      files until the total fits or only the newest file is left: every point it
      passes is over the limit, it never reaches the newest file, and where it
      stops the total fits or the newest file is next. */
  lemma {:induction false} PruneStopRule(files: seq<LogFile>, maxBytes: int, index: nat)
    requires index <= |files|
    ensures var k := PruneStop(files, maxBytes, TotalSize(files) - FreedSize(files, index), index);
      (index < |files| ==> k < |files|)
      && (forall j :: index <= j < k ==> TotalSize(files) - FreedSize(files, j) > maxBytes)
      && (TotalSize(files) - FreedSize(files, k) <= maxBytes || k + 1 >= |files|)
    decreases |files| - index
  {
    var total := TotalSize(files) - FreedSize(files, index);
    if total > maxBytes && index < |files| - 1 {
      PruneStopRule(files, maxBytes, index + 1);
    }
  }

  /** The .log files of the walk, oldest first. */
  function LogFilesByAge(walk: seq<LogFile>): (files: seq<LogFile>)
    ensures SortedByAge(files)
    ensures forall f :: f in files ==> f in walk && IsLogFile(f)
  {
    var files := SortByAge(Filter(walk, IsLogFile));
    assert forall f :: f in files ==> f in multiset(files);
    files
  }

  /** The deletion loop of `enforceStorageLimit` over files sorted by age. */
  method PruneOldest(files: seq<LogFile>, maxBytes: int) returns (deleted: seq<LogFile>, tried: nat)
    ensures tried == PruneStop(files, maxBytes, TotalSize(files), 0)
    ensures deleted == DeletedAmong(files, tried)
  {
    deleted := [];
    var total := TotalSize(files);
    var index := 0;
    while total > maxBytes && index < |files| - 1
      invariant 0 <= index <= |files|
      invariant total == TotalSize(files) - FreedSize(files, index)
      invariant deleted == DeletedAmong(files, index)
      invariant PruneStop(files, maxBytes, total, index) == PruneStop(files, maxBytes, TotalSize(files), 0)
      decreases |files| - index
    {
      var file := files[index];
      if file.deletable {
        total := total - file.size;
        deleted := deleted + [file];
      }
      index := index + 1;
    }
    tried := index;
  }

  /** `enforceStorageLimit`: the .log files found while walking the log root are
      sorted by age; while their total size exceeds the limit, the oldest are
      deleted one at a time, but the newest is never touched. Returns the files
      that were deleted and how many were tried. */
  method EnforceStorageLimit(walk: seq<LogFile>, maxStorageMb: int) returns (deleted: seq<LogFile>, tried: nat)
    ensures maxStorageMb <= 0 ==> deleted == [] && tried == 0
    ensures maxStorageMb > 0 ==>
      var files := LogFilesByAge(walk);
      tried == PruneStop(files, maxStorageMb * 1024 * 1024, TotalSize(files), 0)
      && deleted == DeletedAmong(files, tried)
  {
    if maxStorageMb <= 0 {
      return [], 0;
    }
    deleted, tried := PruneOldest(LogFilesByAge(walk), maxStorageMb * 1024 * 1024);
  }

  /** What pruning promises: only deletable .log files from the walk are
      deleted; the newest log file is never tried; every file tried was tried
      while the total was over the limit and is no newer than any file kept;
      and pruning stops as soon as the total fits. */
  lemma PruneKeepsNewest(walk: seq<LogFile>, maxBytes: int)
    ensures var files := LogFilesByAge(walk);
      var k := PruneStop(files, maxBytes, TotalSize(files), 0);
      (|files| > 0 ==> k < |files|)
      && (forall f :: f in DeletedAmong(files, k) ==> f in walk && IsLogFile(f) && f.deletable)
      && (forall i, j :: 0 <= i < k <= j < |files| ==> files[i].lastModified <= files[j].lastModified)
      && (forall j :: 0 <= j < k ==> TotalSize(files) - FreedSize(files, j) > maxBytes)
      && (TotalSize(files) - FreedSize(files, k) <= maxBytes || k + 1 >= |files|)
  {
    PruneSorted(LogFilesByAge(walk), maxBytes);
  }

  /** The pruning rule on any list of files sorted oldest first. */
  lemma PruneSorted(files: seq<LogFile>, maxBytes: int)
    requires SortedByAge(files)
    ensures var k := PruneStop(files, maxBytes, TotalSize(files), 0);
      (|files| > 0 ==> k < |files|)
      && (forall f :: f in DeletedAmong(files, k) ==> f in files && f.deletable)
      && (forall i, j :: 0 <= i < k <= j < |files| ==> files[i].lastModified <= files[j].lastModified)
      && (forall j :: 0 <= j < k ==> TotalSize(files) - FreedSize(files, j) > maxBytes)
      && (TotalSize(files) - FreedSize(files, k) <= maxBytes || k + 1 >= |files|)
  {
    assert TotalSize(files) - FreedSize(files, 0) == TotalSize(files);
    PruneStopRule(files, maxBytes, 0);
    var k := PruneStop(files, maxBytes, TotalSize(files), 0);
    DeletedInFiles(files, k);
    SortedSplit(files, k);
  }

  /** The files deleted among the first n tried are deletable files of the list. */
  lemma DeletedInFiles(files: seq<LogFile>, n: nat)
    requires n <= |files|
    ensures forall f :: f in DeletedAmong(files, n) ==> f in files && f.deletable
  {
    var deleted := DeletedAmong(files, n);
    forall f | f in deleted
      ensures f in files && f.deletable
    {
      var i :| 0 <= i < |deleted| && deleted[i] == f;
      assert f in files[..n];
    }
  }

  /** In a list sorted by age, every file before a split point is no newer
      than any file after it. */
  lemma SortedSplit(files: seq<LogFile>, k: nat)
    requires SortedByAge(files)
    ensures forall i, j :: 0 <= i < k <= j < |files| ==> files[i].lastModified <= files[j].lastModified
  {
  }

  // ------------------------------------------------------------------
  // The log object

  /** The path `init` reads: the stored preference (or "") sanitized. */
  function InitialPath(pref: Option<string>): string {
    SanitizePath(if pref.Some? then pref.value else "")
  }

  /** The limit `init` reads: the stored preference (or 10) clamped to [0, 100]. */
  function InitialMaxStorageMb(pref: Option<int>): (r: int)
    ensures 0 <= r <= MAX_STORAGE_MB_LIMIT
    ensures pref.None? ==> r == DEFAULT_MAX_STORAGE_MB
    ensures pref.Some? && 0 <= pref.value <= MAX_STORAGE_MB_LIMIT ==> r == pref.value
  {
    Clamp(if pref.Some? then pref.value else DEFAULT_MAX_STORAGE_MB, 0, MAX_STORAGE_MB_LIMIT)
  }

  class CommunicationLog {
    /** The deque of entries. */
    var buffer: seq<Entry>
    /** The published list (`entries`). */
    var entries: seq<Entry>
    var logPath: string
    var maxStorageMb: int
    var initialized: bool
    /** The "path" and "max_storage_mb" preferences, if set. */
    var prefPath: Option<string>
    var prefMaxStorageMb: Option<int>

    ghost predicate Valid()
      reads this
    {
      |buffer| <= MAX_ENTRIES && entries == buffer
    }

    constructor(prefPath: Option<string>, prefMaxStorageMb: Option<int>)
      ensures Valid()
      ensures buffer == [] && logPath == "" && maxStorageMb == DEFAULT_MAX_STORAGE_MB && !initialized
      ensures this.prefPath == prefPath && this.prefMaxStorageMb == prefMaxStorageMb
    {
      buffer := [];
      entries := [];
      logPath := "";
      maxStorageMb := DEFAULT_MAX_STORAGE_MB;
      initialized := false;
      this.prefPath := prefPath;
      this.prefMaxStorageMb := prefMaxStorageMb;
    }

    /** `add(message, isServer, isSuccess)` at time `now`. */
    method Add(message: string, isServer: bool, isSuccess: Option<bool>, now: int)
      requires Valid()
      modifies this
      ensures Valid()
      ensures buffer == Appended(old(buffer), Entry(message, isServer, isSuccess, now))
      ensures logPath == old(logPath) && maxStorageMb == old(maxStorageMb)
      ensures initialized == old(initialized) && prefPath == old(prefPath)
      ensures prefMaxStorageMb == old(prefMaxStorageMb)
    {
      buffer := buffer + [Entry(message, isServer, isSuccess, now)];
      if |buffer| > MAX_ENTRIES {
        buffer := buffer[1..];
      }
      entries := buffer;
    }

    /** `clear()` empties both the buffer and the published list. */
    method Clear()
      modifies this
      ensures Valid()
      ensures buffer == [] && entries == []
      ensures logPath == old(logPath) && maxStorageMb == old(maxStorageMb)
      ensures initialized == old(initialized) && prefPath == old(prefPath)
      ensures prefMaxStorageMb == old(prefMaxStorageMb)
    {
      buffer := [];
      entries := [];
    }

    /** `init` (once): the path and limit come from the preferences, sanitized
        and clamped. */
    method EnsureInitialized()
      modifies this
      ensures initialized
      ensures !old(initialized) ==>
        logPath == InitialPath(prefPath) && maxStorageMb == InitialMaxStorageMb(prefMaxStorageMb)
      ensures old(initialized) ==> logPath == old(logPath) && maxStorageMb == old(maxStorageMb)
      ensures buffer == old(buffer) && entries == old(entries)
      ensures prefPath == old(prefPath) && prefMaxStorageMb == old(prefMaxStorageMb)
    {
      if initialized {
        return;
      }
      logPath := InitialPath(prefPath);
      maxStorageMb := InitialMaxStorageMb(prefMaxStorageMb);
      initialized := true;
    }

    /** `setLogPath(raw)`: stores and returns the sanitized path; the preference
        is written only when the path changes. */
    method SetLogPath(raw: string) returns (sanitized: string)
      modifies this
      ensures sanitized == SanitizePath(raw) && logPath == sanitized && initialized
      ensures var before := if old(initialized) then old(logPath) else InitialPath(old(prefPath));
        prefPath == (if sanitized != before then Some(sanitized) else old(prefPath))
      ensures buffer == old(buffer) && entries == old(entries)
      ensures prefMaxStorageMb == old(prefMaxStorageMb)
      ensures maxStorageMb == (if old(initialized) then old(maxStorageMb) else InitialMaxStorageMb(old(prefMaxStorageMb)))
    {
      EnsureInitialized();
      sanitized := SanitizePath(raw);
      if logPath != sanitized {
        logPath := sanitized;
        prefPath := Some(sanitized);
      }
    }

    /** `setMaxStorageMb(value)`: stores and returns the value clamped to
        [0, 100]; the preference is written only when the limit changes. */
    method SetMaxStorageMb(value: int) returns (coerced: int)
      modifies this
      ensures coerced == Clamp(value, 0, MAX_STORAGE_MB_LIMIT) && maxStorageMb == coerced && initialized
      ensures 0 <= coerced <= MAX_STORAGE_MB_LIMIT
      ensures var before := if old(initialized) then old(maxStorageMb) else InitialMaxStorageMb(old(prefMaxStorageMb));
        prefMaxStorageMb == (if coerced != before then Some(coerced) else old(prefMaxStorageMb))
      ensures buffer == old(buffer) && entries == old(entries) && prefPath == old(prefPath)
      ensures logPath == (if old(initialized) then old(logPath) else InitialPath(old(prefPath)))
    {
      EnsureInitialized();
      coerced := Clamp(value, 0, MAX_STORAGE_MB_LIMIT);
      if maxStorageMb != coerced {
        maxStorageMb := coerced;
        prefMaxStorageMb := Some(coerced);
      }
    }
  }
}
