# NFC emulator: a verified model of its core

The NFC emulator is an Android app that poses as a contactless (ISO 14443-4 / ISO 7816-4)
card through host card emulation. It registers AIDs (application identifiers) with the
system. It answers APDUs (command messages) from a reader by running user-defined
*scenarios*: named sequences of request/response steps. A remote or embedded *server*
drives it with JSON commands. A communication log records the traffic, and filter
patterns hide log lines.

This project restates the core of the emulator in Dafny and proves what each part
promises. The model covers:

- the APDU services;
- the scenario engine and its persistence;
- the JSON command handler;
- the communication log and its filters;
- the settings and status holders;
- the edit and import logic of the AID, scenario, communication and server screens;
- the two handlers of the example server written in JavaScript.

One Dafny module stands for each source file. Shared helpers live in `Common`:
Kotlin string functions, `split`/`joinToString`, de-duplication and integer
parsing. Android's `org.json` accessors are in `Json`, and the JavaScript values
of the example server are in `JsValues`.

Code that changes state in place becomes a class. Examples are `ScenarioManager`,
`CommunicationLog`, `CommunicationFilter`, `SettingsManager`, `AppStatusManager`,
`RequestStateTracker`, the screens' state holders and the example server's stores. The
methods of these classes are proved against pure functions on values. Lemmas then state
what those functions promise: round trips, invariants and exact membership. Code that
only computes becomes functions and lemmas.

## Model

| member | source | states |
|---|---|---|
| RequestState.RequestStateTracker.constructor | app/src/main/java/com/lnkv/nfcemulator/RequestStateTracker.kt:9 | The version counter starts at 0. |
| RequestState.RequestStateTracker.MarkChanged | app/src/main/java/com/lnkv/nfcemulator/RequestStateTracker.kt:24-26 | Each change of app state raises the version by exactly one. |
| RequestState.RequestStateTracker.Version | app/src/main/java/com/lnkv/nfcemulator/RequestStateTracker.kt:17-18 | Reading the version returns the counter and changes nothing. |
| Settings.Data | app/src/main/java/com/lnkv/nfcemulator/SettingsManager.kt:53-56 | Success sends the status word 90 00 and FileNotFound sends 6A 82; both are two bytes long. |
| Settings.ValueOf | app/src/main/java/com/lnkv/nfcemulator/SettingsManager.kt:29-30 | valueOf finds a response only under its enum name, and it finds every response under its name. |
| Settings.ValueOfName | app/src/main/java/com/lnkv/nfcemulator/SettingsManager.kt:29-48 | A response stored under its name reads back as the same response. |
| Settings.SettingsManager.constructor | app/src/main/java/com/lnkv/nfcemulator/SettingsManager.kt:17-24 | Multi-select starts off; the selected response starts as Success and the unselected one as FileNotFound. |
| Settings.SettingsManager.Load | app/src/main/java/com/lnkv/nfcemulator/SettingsManager.kt:26-31 | Each value comes from its preference or its default. An unknown stored name makes valueOf throw after the earlier values were set. With no preferences the defaults hold. |
| Settings.SettingsManager.SetAllowMultiSelect | app/src/main/java/com/lnkv/nfcemulator/SettingsManager.kt:33-37 | Publishes the flag and persists the same flag; nothing else changes. |
| Settings.SettingsManager.SetSelectedResponse | app/src/main/java/com/lnkv/nfcemulator/SettingsManager.kt:39-43 | Publishes the response and persists its name; nothing else changes. |
| Settings.SettingsManager.SetUnselectedResponse | app/src/main/java/com/lnkv/nfcemulator/SettingsManager.kt:45-49 | Publishes the response and persists its name; nothing else changes. |
| AppStatus.SilencedStatus | app/src/main/java/com/lnkv/nfcemulator/AppStatusManager.kt:67-77 | Silencing asks for SILENCED. Un-silencing asks for READY when a scenario is current and IDLE otherwise. |
| AppStatus.AppStatusManager.constructor | app/src/main/java/com/lnkv/nfcemulator/AppStatusManager.kt:15 | The status starts IDLE with nothing posted to the server. |
| AppStatus.AppStatusManager.Current | app/src/main/java/com/lnkv/nfcemulator/AppStatusManager.kt:21-22 | current returns the stored status. |
| AppStatus.AppStatusManager.Set | app/src/main/java/com/lnkv/nfcemulator/AppStatusManager.kt:29-35 | A new status is stored and posted exactly once. Setting the same status again posts nothing. The posted sequence never repeats a status twice in a row and ends with the current status. |
| AppStatus.AppStatusManager.ScenarioLoaded | app/src/main/java/com/lnkv/nfcemulator/AppStatusManager.kt:38-40 | The status becomes READY; it is posted only when it changed. |
| AppStatus.AppStatusManager.ScenarioUnloaded | app/src/main/java/com/lnkv/nfcemulator/AppStatusManager.kt:43-45 | The status becomes IDLE; it is posted only when it changed. |
| AppStatus.AppStatusManager.ScenarioRunning | app/src/main/java/com/lnkv/nfcemulator/AppStatusManager.kt:48-50 | The status becomes RUNNING; it is posted only when it changed. |
| AppStatus.AppStatusManager.ScenarioFinished | app/src/main/java/com/lnkv/nfcemulator/AppStatusManager.kt:53-55 | The status becomes FINISHED; it is posted only when it changed. |
| AppStatus.AppStatusManager.ScenarioStopped | app/src/main/java/com/lnkv/nfcemulator/AppStatusManager.kt:58-60 | The status becomes STOPPED; it is posted only when it changed. |
| AppStatus.AppStatusManager.SetError | app/src/main/java/com/lnkv/nfcemulator/AppStatusManager.kt:80-82 | The status becomes ERROR; it is posted only when it changed. |
| AppStatus.AppStatusManager.Silenced | app/src/main/java/com/lnkv/nfcemulator/AppStatusManager.kt:67-77 | The status becomes SilencedStatus(on, hasCurrent), posted only when it changed. |
| Filters.UpperAll | app/src/main/java/com/lnkv/nfcemulator/CommunicationFilter.kt:89 | Upper-cases every pattern of the list and keeps its length and order. |
| Filters.AddRejectsInvalid | app/src/main/java/com/lnkv/nfcemulator/CommunicationFilter.kt:44-46 | An add whose upper-cased pattern is not hex-or-star leaves the list unchanged. |
| Filters.AddAppendsOnce | app/src/main/java/com/lnkv/nfcemulator/CommunicationFilter.kt:44-48 | A valid add appends the upper-cased pattern when it is new. A pattern already listed leaves the list as it is. The list stays free of duplicates. |
| Filters.RemoveDeletesExactly | app/src/main/java/com/lnkv/nfcemulator/CommunicationFilter.kt:59-61 | remove deletes exactly the equal pattern; the rest keep their order. |
| Filters.ReplaceSwaps | app/src/main/java/com/lnkv/nfcemulator/CommunicationFilter.kt:73-77 | An invalid replacement changes nothing. Otherwise the old pattern is gone unless it equals the new one, every other pattern stays, and there are no duplicates. |
| Filters.SetAllKeepsValid | app/src/main/java/com/lnkv/nfcemulator/CommunicationFilter.kt:88-90 | setAll keeps exactly the upper-cased inputs that are valid patterns, once each. |
| Filters.InstanceMatches | app/src/main/java/com/lnkv/nfcemulator/CommunicationFilter.kt:126-130 | A pattern matches every text obtained by replacing each star with a run of hex digits. |
| Filters.MatchIsInstance | app/src/main/java/com/lnkv/nfcemulator/CommunicationFilter.kt:126-130 | Every text a pattern matches is such an instance (the converse of InstanceMatches). |
| Filters.LiteralMatches | app/src/main/java/com/lnkv/nfcemulator/CommunicationFilter.kt:126-130 | A pattern without a star matches exactly itself. |
| Filters.StarThenLiteral | app/src/main/java/com/lnkv/nfcemulator/CommunicationFilter.kt:126-130 | A star followed by literal text matches the texts that end with that text after a run of hex digits. |
| Filters.Payload | app/src/main/java/com/lnkv/nfcemulator/CommunicationFilter.kt:115 | The compared payload holds no spaces; a line without a colon is compared whole, upper-cased. |
| Filters.AnyMatches | app/src/main/java/com/lnkv/nfcemulator/CommunicationFilter.kt:116 | True exactly when some listed pattern matches the payload. |
| Filters.ShouldHideMeansInstance | app/src/main/java/com/lnkv/nfcemulator/CommunicationFilter.kt:113-117 | A message is hidden exactly when its payload is an instance of some listed pattern. |
| Filters.PayloadOfTagged | app/src/main/java/com/lnkv/nfcemulator/CommunicationFilter.kt:114-115 | A log line "TAG: HEX" is compared by its HEX part. |
| Filters.PayloadOfBare | app/src/main/java/com/lnkv/nfcemulator/CommunicationFilter.kt:115 | A bare hex line is compared whole. |
| Filters.ExactPatternExample | app/src/main/java/com/lnkv/nfcemulator/CommunicationFilter.kt:113-130 | "AABB" hides "REQ: AABB" and does not hide "RESP: AABBAA". |
| Filters.WildcardPatternExample | app/src/main/java/com/lnkv/nfcemulator/CommunicationFilter.kt:113-130 | "*900" hides "11900" and does not hide "90011". |
| Filters.CommunicationFilter.constructor | app/src/main/java/com/lnkv/nfcemulator/CommunicationFilter.kt:23 | The filter list starts empty. |
| Filters.CommunicationFilter.Load | app/src/main/java/com/lnkv/nfcemulator/CommunicationFilter.kt:33-36 | load publishes the stored set in its enumeration order. |
| Filters.CommunicationFilter.Add | app/src/main/java/com/lnkv/nfcemulator/CommunicationFilter.kt:44-51 | The list becomes AfterAdd of the old list. A valid add persists the new set when a context is given and bumps the version. An invalid add changes nothing. |
| Filters.CommunicationFilter.Remove | app/src/main/java/com/lnkv/nfcemulator/CommunicationFilter.kt:59-64 | The list becomes AfterRemove. The set is persisted when a context is given, and the version is bumped. |
| Filters.CommunicationFilter.Replace | app/src/main/java/com/lnkv/nfcemulator/CommunicationFilter.kt:73-80 | The list becomes AfterReplace. An invalid replacement changes nothing, not even the version. |
| Filters.CommunicationFilter.SetAll | app/src/main/java/com/lnkv/nfcemulator/CommunicationFilter.kt:88-93 | The list becomes the valid upper-cased inputs, which are always persisted; the version is bumped. |
| Filters.CommunicationFilter.Clear | app/src/main/java/com/lnkv/nfcemulator/CommunicationFilter.kt:100-104 | The list becomes empty. The empty set is persisted when a context is given, and the version is bumped. |
| Filters.CommunicationFilter.ShouldHideNow | app/src/main/java/com/lnkv/nfcemulator/CommunicationFilter.kt:113-117 | The loop over the patterns answers ShouldHide on the current list. |
| CommLog.AppendedBounded | app/src/main/java/com/lnkv/nfcemulator/CommunicationLog.kt:53-60 | add puts the entry last and keeps at most 1000 entries. The oldest entry is dropped only when the buffer was full. |
| CommLog.LastN | app/src/main/java/com/lnkv/nfcemulator/CommunicationLog.kt:56-57 | The last n elements: all of them when there are fewer. |
| CommLog.AppendAllKeepsNewest | app/src/main/java/com/lnkv/nfcemulator/CommunicationLog.kt:53-60 | However many entries are added, the buffer holds the newest 1000 of all entries, in order. |
| CommLog.Messages | app/src/main/java/com/lnkv/nfcemulator/CommunicationLog.kt:161 | The messages of the entries, in order. |
| CommLog.LogTextReadsBack | app/src/main/java/com/lnkv/nfcemulator/CommunicationLog.kt:160-165 | The saved text is empty for no entries and the message alone for one. When no message contains a newline, splitting the text on newlines gives the messages back. |
| CommLog.BuildFileNameShape | app/src/main/java/com/lnkv/nfcemulator/CommunicationLog.kt:207-211 | The file name is the scenario name (or "log") with spaces turned into underscores, then "_", the time stamp and ".log". |
| CommLog.KeepPathChars | app/src/main/java/com/lnkv/nfcemulator/CommunicationLog.kt:183 | The regex replacement leaves only letters, digits, '.', '_' and '-', and never lengthens a segment. |
| CommLog.CleanSegments | app/src/main/java/com/lnkv/nfcemulator/CommunicationLog.kt:180-184 | Every segment kept is non-empty and made of path characters only. |
| CommLog.CleanSegment | app/src/main/java/com/lnkv/nfcemulator/CommunicationLog.kt:181-183 | A cleaned segment holds only characters of [A-Za-z0-9._-]. |
| CommLog.SanitizePathShape | app/src/main/java/com/lnkv/nfcemulator/CommunicationLog.kt:177-186 | A blank path sanitizes to "". Any other result is made of non-empty clean segments joined by '/', so it has no "//" and no leading or trailing '/'. |
| CommLog.DotSegmentsDropped | app/src/main/java/com/lnkv/nfcemulator/CommunicationLog.kt:182 | A segment that trims to "." or ".." is dropped. |
| CommLog.SanitizeOneSegment | app/src/main/java/com/lnkv/nfcemulator/CommunicationLog.kt:177-186 | A path with no separator and no surrounding blanks sanitizes to its path characters. |
| CommLog.SanitizeDotsTail | app/src/main/java/com/lnkv/nfcemulator/CommunicationLog.kt:182-183 | ".." followed by a character that is then stripped survives as "..": the dot check runs before the stripping. |
| CommLog.SanitizeNotIdempotent | app/src/main/java/com/lnkv/nfcemulator/CommunicationLog.kt:177-186 | Sanitizing twice can differ from sanitizing once: "..~" gives "..", which gives "". |
| CommLog.DotsSanitizeToEmpty | app/src/main/java/com/lnkv/nfcemulator/CommunicationLog.kt:182 | "." and ".." alone sanitize to "". |
| CommLog.InsertByAge | app/src/main/java/com/lnkv/nfcemulator/CommunicationLog.kt:193 | Inserting keeps the list sorted by modification time and adds exactly the one file. |
| CommLog.SortByAge | app/src/main/java/com/lnkv/nfcemulator/CommunicationLog.kt:193 | sortedBy gives the same files, oldest first. |
| CommLog.DeletedAmong | app/src/main/java/com/lnkv/nfcemulator/CommunicationLog.kt:197-203 | Only deletable files among those tried are deleted. |
| CommLog.PruneStop | app/src/main/java/com/lnkv/nfcemulator/CommunicationLog.kt:197 | The loop stops between its start and the end of the list. |
| CommLog.PruneStopRule | app/src/main/java/com/lnkv/nfcemulator/CommunicationLog.kt:197-204 | The loop stops at the first index where the remaining total fits or only the newest file is left; it never tries the newest file. |
| CommLog.LogFilesByAge | app/src/main/java/com/lnkv/nfcemulator/CommunicationLog.kt:191-194 | The files walked that are regular files with extension "log" in any case, oldest first. |
| CommLog.PruneOldest | app/src/main/java/com/lnkv/nfcemulator/CommunicationLog.kt:195-204 | The deletion loop tries exactly the files up to PruneStop and deletes exactly the deletable ones among them. |
| CommLog.EnforceStorageLimit | app/src/main/java/com/lnkv/nfcemulator/CommunicationLog.kt:188-205 | A limit of 0 or less deletes nothing. Otherwise the oldest .log files are deleted until the total fits in the limit times 1024 times 1024 bytes. |
| CommLog.PruneKeepsNewest | app/src/main/java/com/lnkv/nfcemulator/CommunicationLog.kt:188-205 | Pruning deletes only deletable .log files from the walk and never the newest one. |
| CommLog.InitialMaxStorageMb | app/src/main/java/com/lnkv/nfcemulator/CommunicationLog.kt:76-77 | The stored limit (10 when absent) is clamped into 0..100. |
| CommLog.CommunicationLog.constructor | app/src/main/java/com/lnkv/nfcemulator/CommunicationLog.kt:20-41 | The log starts empty and uninitialised, with limit 10. |
| CommLog.CommunicationLog.Add | app/src/main/java/com/lnkv/nfcemulator/CommunicationLog.kt:53-60 | The buffer becomes Appended(old buffer, the entry) and is published; settings are unchanged. |
| CommLog.CommunicationLog.Clear | app/src/main/java/com/lnkv/nfcemulator/CommunicationLog.kt:66-70 | Both the buffer and the published list become empty. |
| CommLog.CommunicationLog.EnsureInitialized | app/src/main/java/com/lnkv/nfcemulator/CommunicationLog.kt:72-79 | The first call reads the sanitized path and the clamped limit from the preferences; later calls change nothing. |
| CommLog.CommunicationLog.SetLogPath | app/src/main/java/com/lnkv/nfcemulator/CommunicationLog.kt:81-89 | Stores and returns the sanitized path. The preference is written only when the path changed. |
| CommLog.CommunicationLog.SetMaxStorageMb | app/src/main/java/com/lnkv/nfcemulator/CommunicationLog.kt:91-99 | Stores and returns the value clamped into 0..100. The preference is written only when the value changed. |
| Json.Opt | app/src/main/java/com/lnkv/nfcemulator/ServerJsonHandler.kt:46 | opt finds nothing exactly when no member has the key. Otherwise it finds the value of the last member with the key, as Android's org.json keeps the later duplicate. |
| Json.OptAt | app/src/main/java/com/lnkv/nfcemulator/ServerJsonHandler.kt:46 | The value of the last member with a key is what opt returns. |
| Json.ValueText | app/src/main/java/com/lnkv/nfcemulator/ServerJsonHandler.kt:64 | optString gives a string as it is, JSON null as "null", and arrays and objects as their JSON text. |
| Json.OptStringOr | app/src/main/java/com/lnkv/nfcemulator/ServerJsonHandler.kt:197 | optString(key, fallback) is the fallback when the key is missing and the value's text otherwise. |
| Json.OptString | app/src/main/java/com/lnkv/nfcemulator/ServerJsonHandler.kt:20 | optString(key) is "" when the key is missing. |
| Json.AsBoolean | app/src/main/java/com/lnkv/nfcemulator/ServerJsonHandler.kt:50 | A JSON boolean is itself; besides booleans only strings ("true"/"false" in any case) convert. |
| Json.OptBoolean | app/src/main/java/com/lnkv/nfcemulator/ServerJsonHandler.kt:50 | optBoolean is the fallback for a missing key and the boolean itself for a JSON boolean. |
| Json.OptObject | app/src/main/java/com/lnkv/nfcemulator/ServerJsonHandler.kt:33-36 | optJSONObject finds an object exactly when the key holds one. |
| Json.OptArray | app/src/main/java/com/lnkv/nfcemulator/ServerJsonHandler.kt:363 | optJSONArray finds an array exactly when the key holds one. |
| Json.ItemObject | app/src/main/java/com/lnkv/nfcemulator/ServerJsonHandler.kt:306 | optJSONObject(i) finds an object exactly when item i exists and is one. |
| Json.Render | app/src/main/java/com/lnkv/nfcemulator/ScenarioData.kt:74-101 | The JSON text of an array starts with '[', of an object with '{', of a string with '"'. |
| ServerJson.ParseFlexibleBoolean | app/src/main/java/com/lnkv/nfcemulator/ServerJsonHandler.kt:186-194 | Only booleans, numbers and strings give an answer; a missing value, JSON null, arrays and objects give none. |
| ServerJson.FlexibleBooleanNumbers | app/src/main/java/com/lnkv/nfcemulator/ServerJsonHandler.kt:190 | A number reads as true unless its 32-bit conversion is 0: a Long with zero low bits reads false, a number too wide for a Long reads true. |
| ServerJson.FlexibleBooleanRoundTrip | app/src/main/java/com/lnkv/nfcemulator/ServerJsonHandler.kt:186-194 | A flag written as a JSON boolean, as 0/1 or as "true"/"false" reads back as itself. |
| ServerJson.ExtractMaxStorageMb | app/src/main/java/com/lnkv/nfcemulator/ServerJsonHandler.kt:264-277 | A limit found is always within 0..100; with neither key present there is none. |
| ServerJson.MaxStorageValue | app/src/main/java/com/lnkv/nfcemulator/ServerJsonHandler.kt:270-276 | A number (converted to 32 bits) or a string that parses gives a limit within 0..100. Anything else gives none. |
| ServerJson.MaxStorageWideNumbers | app/src/main/java/com/lnkv/nfcemulator/ServerJsonHandler.kt:272 | A number too wide for a Long saturates to the limit 100 or to 0; a Long keeps its low 32 bits before the clamp. |
| Json.NumberToInt | app/src/main/java/com/lnkv/nfcemulator/ServerJsonHandler.kt:190 | A number within 64 bits keeps its low 32 bits, a 32-bit number is itself, and a wider number saturates to the 32-bit bounds. |
| ServerJson.MaxStorageLowerLast | app/src/main/java/com/lnkv/nfcemulator/ServerJsonHandler.kt:265-270 | Without the upper-case key, the last lower-case member decides the limit. |
| ServerJson.MaxStorageRoundTrip | app/src/main/java/com/lnkv/nfcemulator/ServerJsonHandler.kt:264-277 | A limit in range, given under "maxStorageMb" as a number or as decimal text, is read back unchanged. |
| ServerJson.MaxStoragePrefersUpper | app/src/main/java/com/lnkv/nfcemulator/ServerJsonHandler.kt:264-277 | "MaxStorageMb" wins over "maxStorageMb". |
| ServerJson.SaveValue | app/src/main/java/com/lnkv/nfcemulator/ServerJsonHandler.kt:226 | The nested save request is "Save", else "save"; it exists exactly when one of the two keys is present. |
| ServerJson.ShouldSave | app/src/main/java/com/lnkv/nfcemulator/ServerJsonHandler.kt:227-232 | "Enabled" decides when present. Otherwise a boolean "Save"/"save" decides. Otherwise the log is saved when a path is named. |
| ServerJson.Items | app/src/main/java/com/lnkv/nfcemulator/ServerJsonHandler.kt:56-90 | The AIDs, patterns or names an Add/Remove value names are never blank. |
| ServerJson.NonBlankTexts | app/src/main/java/com/lnkv/nfcemulator/ServerJsonHandler.kt:60-70 | From an array, exactly the non-blank optString texts of its items are taken. |
| ServerJson.UpdateMaxStorage | app/src/main/java/com/lnkv/nfcemulator/ServerJsonHandler.kt:255-262 | The stored limit becomes the clamped value; an unchanged limit leaves the state untouched (nothing logged). |
| ServerJson.UnparsableLogsError | app/src/main/java/com/lnkv/nfcemulator/ServerJsonHandler.kt:38-41 | Text that is not a JSON object adds one failure entry "JSON ERR: ..." to the log, changes nothing else, and does not report a clear. |
| ServerJson.TypedResult | app/src/main/java/com/lnkv/nfcemulator/ServerJsonHandler.kt:20-31 | With a Type, a clear is reported only for a comm section asking to clear, and an unknown Type changes nothing. |
| ServerJson.UntypedResult | app/src/main/java/com/lnkv/nfcemulator/ServerJsonHandler.kt:33-37 | Without a Type, a clear is reported exactly when the Comm section asks to clear. |
| ServerJson.AidFoldsOnlyAids | app/src/main/java/com/lnkv/nfcemulator/ServerJsonHandler.kt:45-91 | The AID section changes the AID set and the NFC switch and nothing else. |
| ServerJson.FoldAddAids | app/src/main/java/com/lnkv/nfcemulator/ServerJsonHandler.kt:56-72 | Adding the listed AIDs one by one adds exactly their set. |
| ServerJson.FoldRemoveAids | app/src/main/java/com/lnkv/nfcemulator/ServerJsonHandler.kt:74-90 | Removing the listed AIDs one by one removes exactly their set. |
| ServerJson.AidSectionSets | app/src/main/java/com/lnkv/nfcemulator/ServerJsonHandler.kt:45-91 | The AIDs end as ((Clear ? {} : before) + added) - removed. |
| ServerJson.FoldAddFilters | app/src/main/java/com/lnkv/nfcemulator/ServerJsonHandler.kt:100-116 | Adding patterns one by one lists exactly the old patterns and the valid upper-cased new ones; each accepted add bumps the version once. |
| ServerJson.FoldRemoveFilters | app/src/main/java/com/lnkv/nfcemulator/ServerJsonHandler.kt:118-134 | Removing patterns one by one drops exactly those patterns; every remove bumps the version. |
| ServerJson.FiltersSectionResult | app/src/main/java/com/lnkv/nfcemulator/ServerJsonHandler.kt:93-135 | A pattern ends in the list iff it was there and not cleared, or was validly added, and was not removed; the version counts every change. |
| ServerJson.AddScenarioNames | app/src/main/java/com/lnkv/nfcemulator/ScenarioManager.kt:78-84 | Storing a scenario adds its name and keeps every other stored name. |
| ServerJson.RemoveScenarioNames | app/src/main/java/com/lnkv/nfcemulator/ScenarioManager.kt:86-94 | Removing a name drops exactly that name from the store. |
| ServerJson.FoldAddScenarios | app/src/main/java/com/lnkv/nfcemulator/ServerJsonHandler.kt:298-314 | Adding parsed scenarios in turn adds exactly their names and changes nothing but the store. |
| ServerJson.FoldRemoveScenarios | app/src/main/java/com/lnkv/nfcemulator/ServerJsonHandler.kt:316-331 | Removing names in turn drops exactly those names and leaves AIDs, filters, version and log alone. |
| ServerJson.ScenariosSectionNames | app/src/main/java/com/lnkv/nfcemulator/ServerJsonHandler.kt:292-338 | The stored names end as ((Clear ? {} : before) + added) - removed. |
| ServerJson.ResetOutcome | app/src/main/java/com/lnkv/nfcemulator/ServerJsonHandler.kt:340-352 | Reset stops the engine and empties the scenario store, the current scenario, the AIDs, the filters and the log. The log is left with exactly the one reset entry, and the filter clear counts as one change. |
| ServerJson.SaveObjectSaves | app/src/main/java/com/lnkv/nfcemulator/ServerJsonHandler.kt:219-236 | With no path and no limit, a save object saves exactly when ShouldSave says so and otherwise changes nothing. |
| ServerJson.ApplyItems | app/src/main/java/com/lnkv/nfcemulator/ServerJsonHandler.kt:56-90 | The loop over an Add/Remove value applies the operation to each non-blank item in order. |
| ServerJson.ApplyScenarioAdds | app/src/main/java/com/lnkv/nfcemulator/ServerJsonHandler.kt:298-314 | The loop over the scenarios Add value stores each parsable scenario object in order and skips the rest. |
| ServerJson.ApplyItemArray | app/src/main/java/com/lnkv/nfcemulator/ServerJsonHandler.kt:62-69 | The loop over an array Add or Remove value applies the operation to each non-blank optString item, in order. Blank items are skipped. |
| ServerJson.ApplyScenarioArray | app/src/main/java/com/lnkv/nfcemulator/ServerJsonHandler.kt:304-312 | Each array element that is an object with a non-blank name is added in order. Other elements are skipped. |
| ServerJson.HandleAid | app/src/main/java/com/lnkv/nfcemulator/ServerJsonHandler.kt:45-91 | handleAid computes the AID section: Enabled, then Clear, then Add, then Remove. |
| ServerJson.HandleFilters | app/src/main/java/com/lnkv/nfcemulator/ServerJsonHandler.kt:93-135 | handleFilters computes the filters section: Clear, then Add, then Remove. |
| ServerJson.HandleScenarios | app/src/main/java/com/lnkv/nfcemulator/ServerJsonHandler.kt:292-338 | handleScenarios computes the scenarios section: Clear, Add, Remove, then Current. |
| ServerJson.HandleRequest | app/src/main/java/com/lnkv/nfcemulator/ServerJsonHandler.kt:14-43 | handle dispatches on Type, or else runs the sections present in order. It returns whether the log was cleared. |
| ServerJson.HandleTyped | app/src/main/java/com/lnkv/nfcemulator/ServerJsonHandler.kt:21-30 | With a Type, only the named section runs, as Typed gives. |
| ServerJson.HandleSections | app/src/main/java/com/lnkv/nfcemulator/ServerJsonHandler.kt:33-37 | Without a Type, the sections present run in the order Aid, Comm, Scenarios, Filters, Reset, as Untyped gives. |
| ScenarioData.StepNames | app/src/main/java/com/lnkv/nfcemulator/ScenarioData.kt:15-19 | The names of the steps, in order. |
| ScenarioData.Names | app/src/main/java/com/lnkv/nfcemulator/ScenarioData.kt:21-26 | The names of the scenarios, in order. |
| ScenarioData.WithoutName | app/src/main/java/com/lnkv/nfcemulator/ScenarioData.kt:124 | removeAll by name keeps exactly the scenarios with another name. |
| ScenarioData.StepTexts | app/src/main/java/com/lnkv/nfcemulator/ScenarioData.kt:33-39 | The ';'-joined text of each step, in order. |
| ScenarioData.SaveScenarios | app/src/main/java/com/lnkv/nfcemulator/ScenarioData.kt:31-44 | The stored string set holds each scenario's saved line, and nothing else, once each. |
| ScenarioData.AssociateByName | app/src/main/java/com/lnkv/nfcemulator/ScenarioData.kt:66-68 | associateBy keeps one step per name, each name once, and exactly the names of the input. |
| ScenarioData.AssociateLastWins | app/src/main/java/com/lnkv/nfcemulator/ScenarioData.kt:66-68 | A step whose name does not occur later in the list is kept as it is: the last occurrence of a name wins. |
| ScenarioData.AssociateFromInput | app/src/main/java/com/lnkv/nfcemulator/ScenarioData.kt:66-68 | Every kept step is one of the input steps. |
| ScenarioData.AssociateOrder | app/src/main/java/com/lnkv/nfcemulator/ScenarioData.kt:66-68 | The kept names are the input names in the order of their first occurrence (Common.Distinct). |
| ScenarioData.AssociateDistinct | app/src/main/java/com/lnkv/nfcemulator/ScenarioData.kt:66-68 | Steps whose names are already distinct come through associateBy unchanged. |
| ScenarioData.AssociateNewName | app/src/main/java/com/lnkv/nfcemulator/ScenarioData.kt:66-68 | A step with a new name is appended at the end. |
| ScenarioData.LoadLine | app/src/main/java/com/lnkv/nfcemulator/ScenarioData.kt:49-70 | A line loads exactly when its name (the text before the first ';' or '|') is not blank; the name starts the line and holds neither separator; the steps have distinct, non-blank names. |
| ScenarioData.ParseStepPiece | app/src/main/java/com/lnkv/nfcemulator/ScenarioData.kt:58-65 | A step piece gives no step exactly when its name is blank; the step's name starts the piece and holds no ';'. |
| ScenarioData.ParseStepPieces | app/src/main/java/com/lnkv/nfcemulator/ScenarioData.kt:57-66 | The steps read have non-blank names, at most one per piece, and every piece that reads gives its step. |
| ScenarioData.LoadSteps | app/src/main/java/com/lnkv/nfcemulator/ScenarioData.kt:56-69 | The steps of a line have distinct, non-blank names. |
| ScenarioData.HeaderName | app/src/main/java/com/lnkv/nfcemulator/ScenarioData.kt:50-52 | The name stands at the start of the line and holds no ';' or '|'. |
| ScenarioData.LoadLineNameOnly | app/src/main/java/com/lnkv/nfcemulator/ScenarioData.kt:52-55 | A line holding only a name loads with an empty AID, select-once off and no steps. |
| ScenarioData.LoadLineWithoutFlag | app/src/main/java/com/lnkv/nfcemulator/ScenarioData.kt:55 | A header without a third field loads with select-once off. |
| ScenarioData.LoadLineFlag | app/src/main/java/com/lnkv/nfcemulator/ScenarioData.kt:54-55 | The AID is the second field, and select-once is on exactly when the third field reads "true" in any letter case. |
| ScenarioData.LoadScenarios | app/src/main/java/com/lnkv/nfcemulator/ScenarioData.kt:46-72 | Loading gives exactly the scenarios of the lines that parse. |
| ScenarioData.StepPieceRoundTrip | app/src/main/java/com/lnkv/nfcemulator/ScenarioData.kt:33-65 | A step without separators in its fields and with a non-blank name reads back from its text. |
| ScenarioData.StepPiecesRoundTrip | app/src/main/java/com/lnkv/nfcemulator/ScenarioData.kt:57-65 | A list of such steps reads back from its texts. |
| ScenarioData.StepsBodyRoundTrip | app/src/main/java/com/lnkv/nfcemulator/ScenarioData.kt:56-69 | The steps part of a saved line reads back as the steps; it is empty exactly when there are none. |
| ScenarioData.HeaderRoundTrip | app/src/main/java/com/lnkv/nfcemulator/ScenarioData.kt:40-55 | The header of a saved line splits back into name, AID and the select-once flag. |
| ScenarioData.LineRoundTrip | app/src/main/java/com/lnkv/nfcemulator/ScenarioData.kt:31-72 | A storable scenario reads back from its saved line unchanged. |
| ScenarioData.LoadSaveSameSet | app/src/main/java/com/lnkv/nfcemulator/ScenarioData.kt:31-72 | Saving and loading gives back the same scenarios as a set, in any enumeration order of the stored set. |
| ScenarioData.EngineSeesNoSavedScenario | app/src/main/java/com/lnkv/nfcemulator/ScenarioData.kt:40 | The engine looks for lines starting "name\|", which a saved line "name;..." never does. So the engine finds no line and loads no steps. |
| ScenarioData.SavedLineSemicolon | app/src/main/java/com/lnkv/nfcemulator/ScenarioData.kt:40 | A saved line starts "name;", never "name\|". |
| ScenarioData.ImportedSteps | app/src/main/java/com/lnkv/nfcemulator/ScenarioData.kt:111-122 | Imported steps have non-blank, distinct names; the first step object of a name wins. |
| ScenarioData.ScenarioFromJson | app/src/main/java/com/lnkv/nfcemulator/ScenarioData.kt:109-125 | An object gives a scenario exactly when its name is not blank. It takes the name, the AID and selectOnce (default false) from the object. Its steps are empty when "steps" is no array. |
| ScenarioData.ImportItems | app/src/main/java/com/lnkv/nfcemulator/ScenarioData.kt:105-127 | Imported scenarios have distinct, non-blank names. |
| ScenarioData.ReplaceByName | app/src/main/java/com/lnkv/nfcemulator/ScenarioData.kt:124-125 | The scenarios of the same name are dropped, the others keep their order, and the new one ends the list; names stay distinct. |
| ScenarioData.ImportLastAtEnd | app/src/main/java/com/lnkv/nfcemulator/ScenarioData.kt:124-125 | The scenario of the last array element, when it reads, ends the imported list. |
| ScenarioData.ImportScenarios | app/src/main/java/com/lnkv/nfcemulator/ScenarioData.kt:103-128 | The import loops, with their inner loop over steps, compute Imported: a document that is no array, or holds a non-object, fails. |
| ScenarioData.ImportFailureSticks | app/src/main/java/com/lnkv/nfcemulator/ScenarioData.kt:108 | Once an element is no object, the import fails whatever follows. |
| ScenarioData.CollectSteps | app/src/main/java/com/lnkv/nfcemulator/ScenarioData.kt:113-122 | The inner loop keeps the first step of each non-blank name. |
| ScenarioData.ImportKeepsLast | app/src/main/java/com/lnkv/nfcemulator/ScenarioData.kt:124-125 | The last scenario object of each name is the one kept. |
| ScenarioData.ImportKeepsFirstStep | app/src/main/java/com/lnkv/nfcemulator/ScenarioData.kt:116 | The first step object of each non-blank name is the one kept. |
| ScenarioData.StepsComeFromItems | app/src/main/java/com/lnkv/nfcemulator/ScenarioData.kt:113-122 | Every imported step comes from a step object of that name. |
| ScenarioData.ExportScenarios | app/src/main/java/com/lnkv/nfcemulator/ScenarioData.kt:74-97 | Nothing is exported for an empty list; otherwise an array with one object per scenario. |
| ScenarioData.StepsExportImport | app/src/main/java/com/lnkv/nfcemulator/ScenarioData.kt:83-122 | Steps with distinct, non-blank names come back from their exported objects unchanged. |
| ScenarioData.ExportImportRoundTrip | app/src/main/java/com/lnkv/nfcemulator/ScenarioData.kt:74-128 | Importing what was exported gives the same list back when scenario names and each scenario's step names are distinct and non-blank. |
| ScenarioEngine.ToHex | app/src/main/java/com/lnkv/nfcemulator/ScenarioManager.kt:269-270 | Two upper-case hex digits per byte, high nibble first. |
| ScenarioEngine.HexValue | app/src/main/java/com/lnkv/nfcemulator/ScenarioManager.kt:262 | Defined exactly on upper-case hex digits, with values below 16 that invert the digit table. |
| ScenarioEngine.PairAt | app/src/main/java/com/lnkv/nfcemulator/ScenarioManager.kt:262 | toInt(16) of a two-character slice gives -15..255 when it parses. |
| ScenarioEngine.LowByte | app/src/main/java/com/lnkv/nfcemulator/ScenarioManager.kt:263 | toByte keeps a value that already fits in a byte. |
| ScenarioEngine.HexDecode | app/src/main/java/com/lnkv/nfcemulator/ScenarioManager.kt:257-266 | A decoded result has one byte per two characters; an odd last character is ignored. |
| ScenarioEngine.HexToBytes | app/src/main/java/com/lnkv/nfcemulator/ScenarioManager.kt:257-266 | The loop that fills the byte array computes HexDecode, failing exactly where a pair does not parse. |
| ScenarioEngine.HexRoundTrip | app/src/main/java/com/lnkv/nfcemulator/ScenarioManager.kt:257-270 | Decoding the hex of any bytes gives the bytes back. |
| ScenarioEngine.ExtractAid | app/src/main/java/com/lnkv/nfcemulator/ScenarioManager.kt:250-255 | "" for a command shorter than the header or its Lc; otherwise hex that decodes to exactly the Lc data bytes. |
| ScenarioEngine.InactiveIgnores | app/src/main/java/com/lnkv/nfcemulator/ScenarioManager.kt:108-120 | A null command, silence, a stopped engine or no current scenario give null and change nothing. |
| ScenarioEngine.ConsumedSelectIgnored | app/src/main/java/com/lnkv/nfcemulator/ScenarioManager.kt:125-129 | A SELECT of an AID that a single-select step already consumed gives null. |
| ScenarioEngine.SelectStep | app/src/main/java/com/lnkv/nfcemulator/ScenarioManager.kt:135-145 | A Select step answers 90 00 exactly when the command selects its AID (ignoring case). The card is then selected, the step index advances and a single-select AID is recorded. Any other command gets null. |
| ScenarioEngine.RequestResponseStep | app/src/main/java/com/lnkv/nfcemulator/ScenarioManager.kt:146-160 | A request/response step matches exactly when needsSelection equals the selection state and the command's hex equals the request (ignoring case). On a match the step index advances and the result is the decoded response. Otherwise the configured fallback answers and nothing changes. |
| ScenarioEngine.PastLastStep | app/src/main/java/com/lnkv/nfcemulator/ScenarioManager.kt:131-160 | Past the last step, the configured selected or unselected response answers. |
| ScenarioEngine.ProcessMonotone | app/src/main/java/com/lnkv/nfcemulator/ScenarioManager.kt:108-161 | A command moves the step index by at most one and touches only the step state. The consumed set and the selection flag only grow. |
| ScenarioEngine.Reset | app/src/main/java/com/lnkv/nfcemulator/ScenarioManager.kt:163-168 | resetState zeroes the step index, deselects and empties the consumed set, and leaves everything else unchanged. |
| ScenarioEngine.StepTypeValueOf | app/src/main/java/com/lnkv/nfcemulator/ScenarioManager.kt:182 | valueOf inverts the enum's name, and fails on any other text. |
| ScenarioEngine.ToBooleanBoolText | app/src/main/java/com/lnkv/nfcemulator/ScenarioManager.kt:184-187 | toBoolean reads back the text that Boolean.toString writes. |
| ScenarioEngine.LoadAll | app/src/main/java/com/lnkv/nfcemulator/ScenarioManager.kt:196-221 | Loading fails exactly when some stored line does not read, e.g. an unknown step type. Otherwise the i-th scenario is the one the i-th line reads as. |
| ScenarioEngine.SaveAll | app/src/main/java/com/lnkv/nfcemulator/ScenarioManager.kt:223-241 | The stored set holds exactly the saved line of each scenario, once each. |
| ScenarioEngine.FindLine | app/src/main/java/com/lnkv/nfcemulator/ScenarioManager.kt:173 | find picks a stored line that starts with "name\|" or equals the name, and gives none only when no line does. |
| ScenarioEngine.WithoutName | app/src/main/java/com/lnkv/nfcemulator/ScenarioManager.kt:81 | removeAll by name keeps exactly the scenarios with another name. |
| ScenarioEngine.StepTextRoundTrip | app/src/main/java/com/lnkv/nfcemulator/ScenarioManager.kt:177-189 | A step without ';' or ',' in its fields reads back from its seven-field text. |
| ScenarioEngine.StepsRoundTrip | app/src/main/java/com/lnkv/nfcemulator/ScenarioManager.kt:177-189 | A list of such steps reads back from their texts. |
| ScenarioEngine.StepStringRoundTrip | app/src/main/java/com/lnkv/nfcemulator/ScenarioManager.kt:176-190 | The ','-joined steps read back as the steps, including the empty list. |
| ScenarioEngine.LineRoundTrip | app/src/main/java/com/lnkv/nfcemulator/ScenarioManager.kt:196-237 | A storable scenario reads back from its saved line. |
| ScenarioEngine.OtherLineNoMatch | app/src/main/java/com/lnkv/nfcemulator/ScenarioManager.kt:173 | The line of a scenario with another '\|'-free name never matches. |
| ScenarioEngine.AddThenLoad | app/src/main/java/com/lnkv/nfcemulator/ScenarioManager.kt:78-84 | After addScenario(sc), loading sc's name gives exactly sc's steps, whatever order the stored set is read back in. |
| ScenarioEngine.FindLineUnique | app/src/main/java/com/lnkv/nfcemulator/ScenarioManager.kt:173 | When only one stored line matches, find returns that line. |
| ScenarioEngine.ScenarioManager.constructor | app/src/main/java/com/lnkv/nfcemulator/ScenarioManager.kt:21-34 | The engine starts with no current scenario, stopped, unsilenced, with no steps and a reset step state. |
| ScenarioEngine.ScenarioManager.Load | app/src/main/java/com/lnkv/nfcemulator/ScenarioManager.kt:36-42 | Sets the stored current name and loads its steps. |
| ScenarioEngine.ScenarioManager.SetCurrent | app/src/main/java/com/lnkv/nfcemulator/ScenarioManager.kt:44-51 | Stores the name, loads its steps and resets the step state. |
| ScenarioEngine.ScenarioManager.ResetState | app/src/main/java/com/lnkv/nfcemulator/ScenarioManager.kt:163-168 | The state becomes Reset of the old state. |
| ScenarioEngine.ScenarioManager.SetRunning | app/src/main/java/com/lnkv/nfcemulator/ScenarioManager.kt:53-65 | Sets the running flag. Starting logs "started"; stopping logs "stopped" when a scenario is current and resets the step state. |
| ScenarioEngine.ScenarioManager.ToggleSilence | app/src/main/java/com/lnkv/nfcemulator/ScenarioManager.kt:67-76 | Flips the silence flag and logs the silenced or unsilenced message. |
| ScenarioEngine.ScenarioManager.OnDeactivated | app/src/main/java/com/lnkv/nfcemulator/ScenarioManager.kt:103-106 | The card is deselected and nothing else changes. |
| ScenarioEngine.ScenarioManager.ProcessApdu | app/src/main/java/com/lnkv/nfcemulator/ScenarioManager.kt:108-161 | The new state and the result are those of Process. |
| ScenarioEngine.ScenarioManager.ApplyStep | app/src/main/java/com/lnkv/nfcemulator/ScenarioManager.kt:131-156 | The step at the step index, dispatched on its type, leaves the state and result StepOutcome gives. The stored lines and preferences are untouched. |
| ScenarioEngine.ScenarioManager.ApplySelectStep | app/src/main/java/com/lnkv/nfcemulator/ScenarioManager.kt:135-145 | A Select step answers 90 00 to a SELECT of its own AID, in any case. It marks the card selected, consumes a single-select AID and advances. Any other command gets no response and changes nothing. |
| ScenarioEngine.ScenarioManager.ApplyRequestStep | app/src/main/java/com/lnkv/nfcemulator/ScenarioManager.kt:146-158 | A Request/Response step answers its own request, in any case, when the selection state matches; it advances and decodes the response. Otherwise the configured response for the selection state comes back and nothing changes. |
| ScenarioEngine.ScenarioManager.AddScenario | app/src/main/java/com/lnkv/nfcemulator/ScenarioManager.kt:78-84 | The stored set becomes the saved lines of the old scenarios without that name, plus sc, and is read back in any iteration order. The call succeeds exactly when the store loads. |
| ScenarioEngine.ScenarioManager.RemoveScenario | app/src/main/java/com/lnkv/nfcemulator/ScenarioManager.kt:86-94 | The stored set becomes the saved lines of the scenarios without that name, read back in any iteration order, and the call succeeds exactly when the store loads. A current scenario of that name is cleared, in memory and in the stored current name; otherwise the stored current name is unchanged. |
| ScenarioEngine.ScenarioManager.ClearScenarios | app/src/main/java/com/lnkv/nfcemulator/ScenarioManager.kt:96-101 | The store is emptied and no scenario is current. |
| TypeAService.ProcessCommandApdu | app/src/main/java/com/lnkv/nfcemulator/cardservice/TypeAEmulatorService.kt:9-16 | The answer is 90 00 exactly when the command equals the SELECT of AID F0010203040506 byte for byte; it is 6A 82 otherwise, including for no command. |
| TypeAService.NullIsUnknown | app/src/main/java/com/lnkv/nfcemulator/cardservice/TypeAEmulatorService.kt:10 | No command gets 6A 82. |
| TypeAService.PrefixIsUnknown | app/src/main/java/com/lnkv/nfcemulator/cardservice/TypeAEmulatorService.kt:15 | A proper prefix or extension of the SELECT command is unknown: contentEquals compares lengths too. |
| TypeAService.BareHeaderIsUnknown | app/src/main/java/com/lnkv/nfcemulator/cardservice/TypeAEmulatorService.kt:15 | The bare four-byte SELECT header is unknown. |
| TypeAService.SelectNamesServiceAid | app/src/main/java/com/lnkv/nfcemulator/cardservice/TypeAEmulatorService.kt:25-31 | The accepted command is a SELECT by name whose Lc data is the service's AID F0 01 02 03 04 05 06. |
| TypeAService.SessionIsPointwise | app/src/main/java/com/lnkv/nfcemulator/cardservice/TypeAEmulatorService.kt:9-16 | The service keeps no state: each answer of a session depends on its own command alone. |
| HostApduService.ProcessCommandApdu | android/src/org/qt/nfcemulator/MyHostApduService.java:14-19 | Every command, and no command, gets 90 00. |
| HostApduService.AnswerIgnoresCommand | android/src/org/qt/nfcemulator/MyHostApduService.java:14-19 | Any two commands get the same answer. |
| AidScreen.ValidAidIsHexOfBytes | app/src/main/java/com/lnkv/nfcemulator/AidScreen.kt:37-39 | An AID is valid exactly when it is the upper-case hex of 5 to 16 bytes. |
| AidScreen.ValidAidExamples | app/src/main/java/com/lnkv/nfcemulator/AidScreen.kt:37-39 | A seven-byte AID is valid; a four-byte one and a lower-case one are not. |
| AidScreen.DecodeThenEncode | app/src/main/java/com/lnkv/nfcemulator/AidScreen.kt:37-39 | Upper-case hex of even length decodes to bytes whose hex is the same text. |
| AidScreen.FilterAidInput | app/src/main/java/com/lnkv/nfcemulator/AidScreen.kt:123-126 | The field takes the upper-cased input exactly when it is at most 32 hex digits; otherwise it keeps its value. |
| AidScreen.AddIfAbsent | app/src/main/java/com/lnkv/nfcemulator/AidScreen.kt:133-137 | A valid AID not yet listed is appended; anything else leaves the list as it is. |
| AidScreen.AddIfAbsentOnce | app/src/main/java/com/lnkv/nfcemulator/AidScreen.kt:133-137 | Adding a valid AID to a list without duplicates keeps it free of duplicates and lists the AID. |
| Common.RemoveAt | app/src/main/java/com/lnkv/nfcemulator/AidScreen.kt:176 | The element at the index is gone; the others keep their order (AID rows, scenario rows and steps alike). |
| AidScreen.ValidAids | app/src/main/java/com/lnkv/nfcemulator/AidScreen.kt:48 | saveAids keeps exactly the valid AIDs. |
| AidScreen.RegistrationFor | app/src/main/java/com/lnkv/nfcemulator/AidScreen.kt:57-65 | With no valid AID the service's AIDs are removed; otherwise exactly the valid ones are registered. |
| AidScreen.ImportedAids | app/src/main/java/com/lnkv/nfcemulator/AidScreen.kt:79-89 | Every imported AID is valid, and there are no more of them than items. |
| AidScreen.ImportedAidsAppend | app/src/main/java/com/lnkv/nfcemulator/AidScreen.kt:84-87 | Import keeps input order: importing a concatenation gives the concatenated imports. |
| AidScreen.ImportedAidsMembers | app/src/main/java/com/lnkv/nfcemulator/AidScreen.kt:84-87 | An AID is imported exactly when some item upper-cases to it and it is valid. |
| AidScreen.ImportAids | app/src/main/java/com/lnkv/nfcemulator/AidScreen.kt:79-89 | The import loop computes ImportedAids. |
| Common.ExportedList | app/src/main/java/com/lnkv/nfcemulator/AidScreen.kt:68-77 | Nothing is written for an empty list; otherwise the items in list order (the AID and the filter exports alike). |
| AidScreen.ExportImportAids | app/src/main/java/com/lnkv/nfcemulator/AidScreen.kt:68-89 | Importing an exported list of valid AIDs gives the list back. |
| AidScreen.FilterAllValid | app/src/main/java/com/lnkv/nfcemulator/AidScreen.kt:44-48 | Filtering a list of valid AIDs keeps it whole, so saving what was loaded drops nothing. |
| AidScreen.AidList.constructor | app/src/main/java/com/lnkv/nfcemulator/AidScreen.kt:41-45 | The list shown is the valid part of the stored set, or of the default AID set when nothing is stored. |
| AidScreen.AidList.Save | app/src/main/java/com/lnkv/nfcemulator/AidScreen.kt:47-66 | The stored set becomes the valid AIDs; the registry is asked accordingly; the warning shows exactly when some AID was dropped. |
| AidScreen.AidList.Type | app/src/main/java/com/lnkv/nfcemulator/AidScreen.kt:121-126 | The field becomes FilterAidInput of its value and the input; nothing else changes. |
| AidScreen.AidList.Add | app/src/main/java/com/lnkv/nfcemulator/AidScreen.kt:131-142 | A valid AID is appended when absent and then saved, and the field is cleared; an invalid one changes nothing. |
| AidScreen.AidList.Delete | app/src/main/java/com/lnkv/nfcemulator/AidScreen.kt:175-178 | The row is removed and the list saved. |
| AidScreen.AidList.Import | app/src/main/java/com/lnkv/nfcemulator/AidScreen.kt:79-114 | The imported list replaces the shown one and is saved, and the count is its length. A document that cannot be opened clears the list. A malformed one changes nothing and shows no count. |
| ScenarioScreen.FilterName | app/src/main/java/com/lnkv/nfcemulator/ScenarioScreen.kt:567-569 | An input made only of letters, digits, '_', '-', '.' and spaces replaces the field; any other input leaves it as it was. |
| ScenarioScreen.FilterHex | app/src/main/java/com/lnkv/nfcemulator/ScenarioScreen.kt:582-585 | The upper-cased input replaces the field exactly when it is hex; the field only ever holds upper-case hex or its old value. |
| ScenarioScreen.UpperHexIsHexText | app/src/main/java/com/lnkv/nfcemulator/ScenarioScreen.kt:559 | Upper-case hex matches the hex pattern, and an upper-cased text that matches it is upper-case hex. |
| ScenarioScreen.OtherNames | app/src/main/java/com/lnkv/nfcemulator/ScenarioScreen.kt:382-384 | The names of exactly the steps other than the one being edited. |
| ScenarioScreen.SaveStep | app/src/main/java/com/lnkv/nfcemulator/ScenarioScreen.kt:389-393 | A new step is appended; an edited one is replaced in place and the other steps are unchanged. |
| ScenarioScreen.SaveStepKeepsNamesUnique | app/src/main/java/com/lnkv/nfcemulator/ScenarioScreen.kt:556-613 | A step that the editor's Save accepts keeps the step names of the scenario distinct. |
| ScenarioScreen.ScenarioEditorSave | app/src/main/java/com/lnkv/nfcemulator/ScenarioScreen.kt:500-513 | Save is disabled exactly for an invalid AID. A blank title raises the alert. Otherwise the scenario with the title, AID, flag and steps is saved. |
| ScenarioScreen.IndexOfName | app/src/main/java/com/lnkv/nfcemulator/ScenarioScreen.kt:101 | indexOfFirst gives the first index holding the name, or none when no scenario has it. |
| ScenarioScreen.UpsertResult | app/src/main/java/com/lnkv/nfcemulator/ScenarioScreen.kt:100-112 | With distinct names: the names stay distinct and the saved scenario is listed. The edited original's name is replaced by the saved one's. Every other scenario stays. |
| ScenarioScreen.UpsertAppends | app/src/main/java/com/lnkv/nfcemulator/ScenarioScreen.kt:108 | Appending a scenario with a new name keeps the names distinct and adds that name. |
| ScenarioScreen.UpsertReplaces | app/src/main/java/com/lnkv/nfcemulator/ScenarioScreen.kt:103 | Overwriting a row keeps the names distinct and swaps its name for the new one. |
| ScenarioScreen.RemoveAtNames | app/src/main/java/com/lnkv/nfcemulator/ScenarioScreen.kt:105 | Removing one row drops exactly its name and keeps every other scenario. |
| ScenarioScreen.UpsertRemovesEdited | app/src/main/java/com/lnkv/nfcemulator/ScenarioScreen.kt:102-106 | Saving under the name of another row overwrites that row and removes the edited original. |
| ScenarioScreen.KeptMembers | app/src/main/java/com/lnkv/nfcemulator/ScenarioScreen.kt:311-312 | A scenario survives the deletions exactly when some row of it is not deleted. |
| ScenarioScreen.SortDesc | app/src/main/java/com/lnkv/nfcemulator/ScenarioScreen.kt:311 | sortedDescending keeps the length and the elements. |
| ScenarioScreen.SortDescSorted | app/src/main/java/com/lnkv/nfcemulator/ScenarioScreen.kt:311 | Distinct indices sort strictly descending. |
| ScenarioScreen.DeleteStep | app/src/main/java/com/lnkv/nfcemulator/ScenarioScreen.kt:311-312 | Deleting from the largest index down, each removeAt removes the row that index named in the original list. |
| ScenarioScreen.CurrentStep | app/src/main/java/com/lnkv/nfcemulator/ScenarioScreen.kt:313-315 | The current scenario is cleared exactly when a removed row carried its name. |
| ScenarioScreen.VisibleItems | app/src/main/java/com/lnkv/nfcemulator/ScenarioScreen.kt:225-226 | The rows shown are exactly the scenarios whose name contains the filter (ignoring case), with their indices, in list order. |
| ScenarioScreen.EmptyFilterShowsAll | app/src/main/java/com/lnkv/nfcemulator/ScenarioScreen.kt:225-226 | The empty filter shows every scenario. |
| ScenarioScreen.SelectedScenarios | app/src/main/java/com/lnkv/nfcemulator/ScenarioScreen.kt:63-67 | The export writes at most the whole list. |
| ScenarioScreen.SelectedScenariosMembers | app/src/main/java/com/lnkv/nfcemulator/ScenarioScreen.kt:63-67 | A scenario is exported exactly when some selected row holds it. |
| ScenarioScreen.SelectAllExportsAll | app/src/main/java/com/lnkv/nfcemulator/ScenarioScreen.kt:63-67 | With every row selected, the export writes the whole list. |
| ScenarioScreen.ScenarioList.constructor | app/src/main/java/com/lnkv/nfcemulator/ScenarioScreen.kt:51-52 | The list is loadScenarios of the stored lines and nothing is selected. |
| ScenarioScreen.ScenarioList.Toggle | app/src/main/java/com/lnkv/nfcemulator/ScenarioScreen.kt:239-241 | A click removes a selected row's index from the selection, or adds it when unselected. |
| ScenarioScreen.ScenarioList.SelectAll | app/src/main/java/com/lnkv/nfcemulator/ScenarioScreen.kt:175-179 | The selection becomes every index, in order. |
| ScenarioScreen.ScenarioList.DeselectAll | app/src/main/java/com/lnkv/nfcemulator/ScenarioScreen.kt:184-187 | The selection becomes empty. |
| ScenarioScreen.ScenarioList.Save | app/src/main/java/com/lnkv/nfcemulator/ScenarioScreen.kt:100-112 | The list becomes the upsert; the selection is cleared and the list saved. |
| ScenarioScreen.ScenarioList.ConfirmDelete | app/src/main/java/com/lnkv/nfcemulator/ScenarioScreen.kt:310-320 | The rows at the indices are gone and the others keep their order. The current scenario is cleared when one of them was it. The selection is cleared and the list saved. |
| ScenarioScreen.ScenarioList.DeleteRows | app/src/main/java/com/lnkv/nfcemulator/ScenarioScreen.kt:311-316 | Removing rows from the largest index down leaves exactly the rows at the other indices, in order. The current scenario is cleared when a removed row was it. |
| ScenarioScreen.ScenarioList.Import | app/src/main/java/com/lnkv/nfcemulator/ScenarioScreen.kt:70-81 | An imported list replaces the shown one, clears the selection and is saved, and its length is the count. A document that cannot be opened imports an empty list. A failed import changes nothing and shows no count. |
| CommScreen.Toggled | app/src/main/java/com/lnkv/nfcemulator/CommunicationScreen.kt:71 | Switching a pane on always applies; switching it off applies only while the other pane is shown; a pane shown with the other hidden stays shown. |
| CommScreen.PaneToggles.constructor | app/src/main/java/com/lnkv/nfcemulator/CommunicationScreen.kt:54-55 | Both panes start shown. |
| CommScreen.PaneToggles.SetShowServer | app/src/main/java/com/lnkv/nfcemulator/CommunicationScreen.kt:71 | The server pane follows Toggled, the NFC pane is unchanged, and some pane stays shown. |
| CommScreen.PaneToggles.SetShowNfc | app/src/main/java/com/lnkv/nfcemulator/CommunicationScreen.kt:78 | The NFC pane follows Toggled, the server pane is unchanged, and some pane stays shown. |
| CommScreen.SomePaneShown | app/src/main/java/com/lnkv/nfcemulator/CommunicationScreen.kt:69-80 | Whatever sequence of toggles is applied, some pane stays shown. |
| CommScreen.FilteredEntries | app/src/main/java/com/lnkv/nfcemulator/CommunicationScreen.kt:58-60 | The entries shown are exactly those no filter hides. |
| CommScreen.FilteredEntriesCons | app/src/main/java/com/lnkv/nfcemulator/CommunicationScreen.kt:58-60 | The shown entries keep the log's order and multiplicity: an unhidden entry appears in its place, a hidden one is skipped. |
| CommScreen.PanesPartition | app/src/main/java/com/lnkv/nfcemulator/CommunicationScreen.kt:61-62 | Every shown entry is in exactly one pane: server entries in the server pane, the rest in the NFC pane. |
| CommScreen.Colour | app/src/main/java/com/lnkv/nfcemulator/CommunicationScreen.kt:232-239 | REQ: is yellow and RESP: cyan. An AID-to-select note, in any case, is orange. Otherwise success is green, failure red, and unknown unspecified, in that order of precedence. |
| CommScreen.TagBeforeOutcome | app/src/main/java/com/lnkv/nfcemulator/CommunicationScreen.kt:232-239 | The tag decides before the outcome: a failed request is still yellow, a successful response still cyan. |
| CommScreen.SaveFilter | app/src/main/java/com/lnkv/nfcemulator/CommunicationScreen.kt:339-351 | An input matching [0-9A-F*]+ is added when no row is being edited, or updates the edited row. Any other input is rejected. |
| CommScreen.SavedPatternListedOnce | app/src/main/java/com/lnkv/nfcemulator/CommunicationScreen.kt:340-342 | An accepted new pattern is in the filter list afterwards, exactly once. |
| CommScreen.ImportedFilters | app/src/main/java/com/lnkv/nfcemulator/CommunicationScreen.kt:367-377 | Every imported filter is a valid pattern, and there are no more of them than items. |
| CommScreen.ImportFilters | app/src/main/java/com/lnkv/nfcemulator/CommunicationScreen.kt:371-376 | The import loop computes ImportedFilters. |
| CommScreen.ExportImportRoundTrip | app/src/main/java/com/lnkv/nfcemulator/CommunicationScreen.kt:356-377 | Importing an exported list of valid patterns gives it back. |
| CommScreen.ImportKeepsValid | app/src/main/java/com/lnkv/nfcemulator/CommunicationScreen.kt:372-375 | A list of valid patterns imports unchanged. |
| CommScreen.SaveFileName | app/src/main/java/com/lnkv/nfcemulator/CommunicationScreen.kt:171-173 | The log file is named after the scenario (or "log") with spaces turned into '_', followed by '_', the time stamp and ".log". |
| ServerScreen.OctetIsByteValue | app/src/main/java/com/lnkv/nfcemulator/ServerScreen.kt:48 | An octet of the address pattern is exactly a one- to three-digit number up to 255, where a three-digit one does not start with 0. |
| ServerScreen.IpPortOfParts | app/src/main/java/com/lnkv/nfcemulator/ServerScreen.kt:48 | Any four octets joined by dots, a colon and one to five digits match the pattern; the first colon separates host and port. |
| ServerScreen.IpPortOfPartsIff | app/src/main/java/com/lnkv/nfcemulator/ServerScreen.kt:48 | Separator-free parts written a.b.c.d:port match the pattern exactly when they are four octets and one to five digits. |
| ServerScreen.IpPortHasParts | app/src/main/java/com/lnkv/nfcemulator/ServerScreen.kt:48 | Every matching address is four octets joined by dots, a colon and one to five digits. |
| ServerScreen.IpPortAccepts | app/src/main/java/com/lnkv/nfcemulator/ServerScreen.kt:48 | "192.168.0.1:8080" matches the pattern. |
| ServerScreen.IpPortAcceptsDefault | app/src/main/java/com/lnkv/nfcemulator/ServerScreen.kt:37-48 | The default field text "0.0.0.0:0000" matches the pattern. |
| ServerScreen.IpPortRejectsLargeOctet | app/src/main/java/com/lnkv/nfcemulator/ServerScreen.kt:48 | "999.999.1.1:80" does not match. |
| ServerScreen.IpPortNeedsPort | app/src/main/java/com/lnkv/nfcemulator/ServerScreen.kt:48 | An address without a port does not match. |
| ServerScreen.IpInput | app/src/main/java/com/lnkv/nfcemulator/ServerScreen.kt:81-91 | An edit made only of digits, dots and colons replaces the field; any other edit leaves it unchanged. |
| ServerScreen.IpInputKeepsIpChars | app/src/main/java/com/lnkv/nfcemulator/ServerScreen.kt:81-91 | Once the field holds only digits, dots and colons, every edit keeps it so. |
| ServerScreen.IpInputRejectsLetters | app/src/main/java/com/lnkv/nfcemulator/ServerScreen.kt:82 | Typing a letter after "192" leaves "192". |
| ServerScreen.IpPortIsIpChars | app/src/main/java/com/lnkv/nfcemulator/ServerScreen.kt:48-91 | Every address the Connect pattern accepts can be typed into the field. |
| ServerScreen.PollingAcceptsAsWritten | app/src/main/java/com/lnkv/nfcemulator/ServerScreen.kt:107-117 | The polling check as written throws exactly on a non-empty digit string beyond the 32-bit range. When it accepts, the text is digits with a value of at most 10000, or empty. |
| ServerScreen.PollingOverflowThrows | app/src/main/java/com/lnkv/nfcemulator/ServerScreen.kt:109 | "99999999999" makes the check throw. |
| ServerScreen.PollingAsWrittenAgrees | app/src/main/java/com/lnkv/nfcemulator/ServerScreen.kt:107-117 | Where the check as written does not throw, it decides as the corrected check does; every input it throws on, the corrected check rejects. |
| ServerScreen.PollingInput | app/src/main/java/com/lnkv/nfcemulator/ServerScreen.kt:107-117 | An accepted edit replaces the field; any other edit leaves it unchanged. |
| ServerScreen.PollingInputKeepsAccepted | app/src/main/java/com/lnkv/nfcemulator/ServerScreen.kt:107-130 | Once the field holds an accepted text, every edit keeps it so, and its text parses as a 32-bit integer. |
| ServerScreen.PollingError | app/src/main/java/com/lnkv/nfcemulator/ServerScreen.kt:130 | The error shows only for a non-empty value below 10. |
| ServerScreen.PollingErrorOfAccepted | app/src/main/java/com/lnkv/nfcemulator/ServerScreen.kt:130 | On an accepted field text toInt does not throw, and the error shows exactly for a non-empty value below 10. |
| ServerScreen.ParseInt64 | app/src/main/java/com/lnkv/nfcemulator/ServerScreen.kt:191 | toLongOrNull gives only 64-bit values: a digit string within range is its value, and the empty text gives nothing. |
| ServerScreen.Connect | app/src/main/java/com/lnkv/nfcemulator/ServerScreen.kt:186-195 | Connect goes ahead exactly when the field matches the pattern. The host has no colon, the port lies in 0..99999 and the polling time is a 64-bit value. |
| ServerScreen.ConnectOfParts | app/src/main/java/com/lnkv/nfcemulator/ServerScreen.kt:186-192 | For an address built from its parts, the host is the dotted octets and the port is the port digits' value, not limited to 65535. An accepted polling text is passed as its value, and an empty one as 0. |
| ServerScreen.ConnectNeedsPort | app/src/main/java/com/lnkv/nfcemulator/ServerScreen.kt:186-195 | An address without a port is refused. |
| ServerScreen.DigitsAtMostFive | app/src/main/java/com/lnkv/nfcemulator/ServerScreen.kt:48-190 | Five port digits are worth at most 99999, so toInt on them cannot throw. |
| ServerScreen.PortInput | app/src/main/java/com/lnkv/nfcemulator/ServerScreen.kt:213-216 | A digits-only edit replaces the port field; any other edit is ignored. |
| ServerScreen.PortInputKeepsDigits | app/src/main/java/com/lnkv/nfcemulator/ServerScreen.kt:213-216 | Once the port field holds digits only, every edit keeps it so. |
| ServerScreen.StartPort | app/src/main/java/com/lnkv/nfcemulator/ServerScreen.kt:289-291 | The port the internal server starts on is a 32-bit value. |
| ServerScreen.StartPortOfDigits | app/src/main/java/com/lnkv/nfcemulator/ServerScreen.kt:290 | The port digits' value when it fits 32 bits; 0 for an empty field or one beyond the range. |
| ServerScreen.ServerFields.constructor | app/src/main/java/com/lnkv/nfcemulator/ServerScreen.kt:37-42 | The fields start from the saved values, or "0.0.0.0:0000", "0" and "0000", which all satisfy the field invariant. |
| ServerScreen.ServerFields.EditIp | app/src/main/java/com/lnkv/nfcemulator/ServerScreen.kt:81-91 | The IP field follows IpInput; the others are unchanged; the invariant holds. |
| ServerScreen.ServerFields.ClearIp | app/src/main/java/com/lnkv/nfcemulator/ServerScreen.kt:99 | The IP field becomes empty. |
| ServerScreen.ServerFields.EditPolling | app/src/main/java/com/lnkv/nfcemulator/ServerScreen.kt:107-117 | The polling field follows the corrected check; the others are unchanged; the invariant holds. |
| ServerScreen.ServerFields.ClearPolling | app/src/main/java/com/lnkv/nfcemulator/ServerScreen.kt:135 | The polling field becomes empty. |
| ServerScreen.ServerFields.EditPort | app/src/main/java/com/lnkv/nfcemulator/ServerScreen.kt:213-216 | The port field follows PortInput; the others are unchanged; the invariant holds. |
| ServerScreen.ServerFields.ClearPort | app/src/main/java/com/lnkv/nfcemulator/ServerScreen.kt:226 | The port field becomes empty. |
| ServerScreen.ServerFields.ShowsPollingError | app/src/main/java/com/lnkv/nfcemulator/ServerScreen.kt:130 | On valid fields the error flag is computed without a throw, and holds exactly for a non-empty value below 10. |
| JsValues.Lookup | example-server/handlers/aid.js:1 | Reading a property gives undefined when no member has the key, and otherwise the value of a member with that key. |
| JsValues.LookupLastWins | example-server/handlers/aid.js:1 | A later member with the same key hides every earlier one. |
| JsValues.LookupOtherKey | example-server/handlers/scenarios.js:1 | A member under another key does not change what a key reads. |
| JsValues.ListOf | example-server/handlers/aid.js:4 | An array stands for its items; any other value stands for itself alone. |
| JsValues.Named | example-server/handlers/aid.js:3-9 | A falsy Add or Remove names no AID; a truthy one names exactly the items of its list. |
| AidHandler.AidMembership | example-server/handlers/aid.js:1-11 | An AID is in the set afterwards exactly when it was there and Clear was falsy, or Add named it, and Remove did not name it. |
| AidHandler.RemoveBeatsAdd | example-server/handlers/aid.js:3-10 | Remove runs after Add: an AID both name ends up absent. |
| AidHandler.ClearKeepsOnlyAdded | example-server/handlers/aid.js:2-6 | A truthy Clear leaves only what Add names. |
| AidHandler.FalsyRequestKeepsSet | example-server/handlers/aid.js:2-10 | A request whose Add, Remove and Clear are all falsy or absent changes nothing. |
| AidHandler.EmptyStringAddsNothing | example-server/handlers/aid.js:3 | An empty string is falsy: Add "" adds nothing. |
| AidHandler.AddPresentIsNoOp | example-server/handlers/aid.js:3-6 | Adding an AID already present leaves the set unchanged. |
| AidHandler.AidHandlerIdempotent | example-server/handlers/aid.js:1-11 | Sending the same request twice has the effect of sending it once. |
| AidHandler.AidStore.HandleAid | example-server/handlers/aid.js:1-11 | The handler throws exactly when the request cannot be destructured. Otherwise its loops leave ((Clear ? {} : S) + Add) - Remove. |
| AidHandler.AidStore.AddAll | example-server/handlers/aid.js:3-6 | Every listed AID is added to the set. |
| AidHandler.AidStore.DeleteAll | example-server/handlers/aid.js:7-10 | Every listed AID is deleted from the set. |
| ScenariosHandler.FirstNullish | example-server/handlers/scenarios.js:4-5 | The first item whose name cannot be read: every item before it can be destructured. |
| ScenariosHandler.LastNamed | example-server/handlers/scenarios.js:5 | The last item stored under a name is an item of the list with that name, and there is none exactly when no item has it. |
| ScenariosHandler.StoredAllContents | example-server/handlers/scenarios.js:4-5 | Storing the items in turn: a key is present exactly when it was before or some item has that name. A named key holds the last item of that name, and any other key keeps its value. |
| ScenariosHandler.StoredAllTwice | example-server/handlers/scenarios.js:4-5 | Storing the same items again changes nothing. |
| ScenariosHandler.Without | example-server/handlers/scenarios.js:9 | Deleting names keeps exactly the other keys, with their values. |
| ScenariosHandler.ThrowsOnNullishItem | example-server/handlers/scenarios.js:1-11 | The handler throws exactly when the request cannot be destructured, Add lists an undefined or null item, or a truthy Current cannot be converted to a string for the log line (an object with its own "toString" member, or an array holding one). |
| ScenariosHandler.ScenarioContents | example-server/handlers/scenarios.js:1-12 | When every Add item can be read, the keys afterwards are ((Clear ? {} : K) + names(Add)) - Remove, and each key holds the last item Add stored under it, or else its old value. The handler then throws exactly when logging Current throws, after these updates. |
| ScenariosHandler.RemoveAfterAdd | example-server/handlers/scenarios.js:3-10 | Remove runs after Add: a name both list ends up absent. |
| ScenariosHandler.UntouchedKeyKept | example-server/handlers/scenarios.js:1-10 | A key the request neither clears, adds nor removes keeps its value. |
| ScenariosHandler.CurrentIgnored | example-server/handlers/scenarios.js:11 | Current is only logged: adding it changes no entry of the map. The request then throws exactly when an Add item cannot be read or Current's string conversion throws, and a Current that converts changes nothing at all. |
| ScenariosHandler.CurrentWithToStringThrows | example-server/handlers/scenarios.js:11 | {"Current": {"toString": 0}} leaves the map as it was and throws; {"Current": "a"} changes nothing and throws nothing. |
| ScenariosHandler.ScenarioHandlerIdempotent | example-server/handlers/scenarios.js:1-12 | Sending the same request twice has the effect of sending it once. |
| ScenariosHandler.FirstNullishAt | example-server/handlers/scenarios.js:4-5 | The first nullish item is the first index past a run of destructurable items. |
| ScenariosHandler.ScenarioStore.HandleScenarios | example-server/handlers/scenarios.js:1-12 | The handler's loops, then the Current log line, leave the map and the thrown flag that AfterScenarios gives, including the entries stored before a throw. |
| ScenariosHandler.ScenarioStore.StoreItems | example-server/handlers/scenarios.js:3-6 | Each item is stored under its name in order. The loop stops at the first undefined or null item and returns its index; the map then holds what the items before it stored. |
| ScenariosHandler.ScenarioStore.RemoveNames | example-server/handlers/scenarios.js:7-10 | Every listed name is deleted and every other entry kept. |

## Left out

- Android, Compose and I/O: rendering, navigation, toasts and clipboard are not modelled. Nor are SharedPreferences writes beyond the stored values, the file system, JSON text parsing and printing, and the clock. The clock and the outcomes of file and path operations are parameters (`ServerJson.Env`, the time argument of the log methods). Pruning old log files works on an abstract list of (last modified, size) pairs.
- Text: upper-casing, ignore-case comparison and `isLetterOrDigit` cover ASCII only; other letters are left unchanged or rejected.
- JSON numbers are integers. An integral literal within 64 bits keeps its low 32 bits under `toInt`, and a wider one saturates as the Double it is read as (`Json.NumberToInt`). Fractional numbers are not modelled.
- The version counter is an unbounded integer. In the source it is a 64-bit `Long` (RequestStateTracker.kt:9), so the wrap-around after 2^63 changes is not modelled.
- The step index is an unbounded integer. In the source it is a 32-bit `Int` (ScenarioManager.kt:32), which would wrap after 2^31 increments. It only advances on a step that exists, so it never passes the number of steps.
- Hash-set iteration order: stored string sets are read back as a sequence in some iteration order. That order is a parameter, including for the set the engine writes in addScenario and removeScenario (any permutation of the lines written), and load/save round trips are stated as sets.
- ScenarioManager and ScenarioData write the same preference key in two line formats. The model keeps them apart, and the engine steps that `setCurrent` loads for a name the server adds are a parameter (`Env.stepsOf`).
- `AidManager`, `ServerConnectionManager`, `InternalServerManager`, `NetworkUtils` and `AppContextHolder` are not part of this model. The AIDs are an abstract set; `setEnabled`, `postStatus`, `validatePath` and the log directory are recorded values or parameters.
- `CommunicationFilter.update` and `setFilters` have no definition in the sources. The screens' calls to them become recorded commands (`CommScreen.SaveFilter`).
- Exceptions in the screens: a JSON document that does not parse, or an item `getString` cannot read, throws in the import code before the list is touched. The model represents such a file as a malformed document (`AidScreen.AidDocument.Malformed`) or as a failed import (`ScenarioData.Imported`), and leaves the list as it was. What happens to the app after the uncaught exception is not modelled.
- ServerJson.HandleRequest: an exception a section handler throws after the request parsed (such as `StepType.valueOf` on an unknown step type, or a failing file operation) is caught, logged as "JSON ERR", and keeps the effects of the sections already run. The model assumes the section handlers do not throw, so it has no outcome for that path.
- `onDeactivated` of the two card services only logs and is not modelled. The engine's `onDeactivated` is.
- ServerScreen: the network side of Connect, Disconnect and Start is not modelled. Nor are the Save buttons' preference writes, the isExternal/autoConnect/staticPort/autoStart switches, and the local IP display. The model stops at the arguments handed to `connect` and `start`.
- ServerScreen.Connect: a port above 65535 passes the pattern. What the connection manager then does with it is not part of this model.
- The example server: JavaScript object identity is replaced by structural equality of parsed JSON values. The insertion order of `Set` and `Map` is not modelled. The Express wiring (server.js) and comm.js are not part of this model.
- MainActivity.kt's older copies of functions modelled here are not modelled again.
- ServerScreenTest's applyDisabledForInvalidIp expects "192.168.0.1" to be accepted. The pattern requires a port, so the model follows the code (`ServerScreen.IpPortNeedsPort`).
- TypeAEmulatorServiceTest's processCommandApdu_select_returnsSuccessAndLogs expects the bare header 00 A4 04 00 to get 90 00 and two communication-log entries. The service compares the whole SELECT command with contentEquals, answers 6A 82 and writes only to the Android debug log, so the model follows the code (`TypeAService.BareHeaderIsUnknown`).

## Findings

| source | as written | input that shows it | evidently intended | confidence | as-written member | corrected member |
|---|---|---|---|---|---|---|
| app/src/main/java/com/lnkv/nfcemulator/ServerScreen.kt:109 | A digits-only polling edit goes through `toInt()` before the range check, and `toInt()` throws NumberFormatException beyond the 32-bit range. | "99999999999" typed into the polling field | Reject the edit with the "Max polling time is 10000" message, as for any value above 10000 | high, not executed | ServerScreen.PollingAcceptsAsWritten (counterexample ServerScreen.PollingOverflowThrows) | ServerScreen.PollingAccepts (used by ServerScreen.PollingInput and ServerScreen.ServerFields.EditPolling; ServerScreen.PollingAsWrittenAgrees relates the two) |
