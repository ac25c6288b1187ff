/** The JSON command interpreter the server channel feeds: one request object
    updates the AID store, the filters, the communication log and its save
    settings, the scenario store and the running scenario. The managers it
    calls are the fields of one state record, and each handler is a step from
    one record to the next. */
module ServerJson {
  import opened Common
  import opened Json
  import Filters
  import CommLog
  import ScenarioData
  import ScenarioEngine

  /** The state of the managers the handler drives. */
  datatype AppState = AppState(
    /** The AID set `AidManager` stores and registers. */
    aids: set<string>,
    /** The last value passed to `AidManager.setEnabled`. */
    nfcEnabled: Option<bool>,
    /** `CommunicationFilter.filters` and the `RequestStateTracker` version. */
    filters: seq<string>,
    version: int,
    /** The communication log buffer and its settings. */
    log: seq<CommLog.Entry>,
    logPath: string,
    maxStorageMb: int,
    /** The scenarios `addScenario`/`removeScenario` rewrite, in store order. */
    scenarios: seq<ScenarioData.Scenario>,
    /** The scenario engine: current scenario, running, silenced, step state. */
    engine: ScenarioEngine.Engine)

  /** What `validatePath` says of a raw path. */
  datatype PathCheck = PathOk(sanitized: string) | PathBad(reason: Option<string>)

  /** How writing the log to its configured location ends. */
  datatype SaveOutcome = Saved(path: string) | SaveFailed(message: string)

  /** What the handler takes from outside: the clock, the path validator, the
      resolved log directory of a path, the outcome of a log save, and the
      engine steps `setCurrent` loads for a scenario name. */
  datatype Env = Env(
    now: int,
    validate: string -> PathCheck,
    resolve: string -> string,
    save: SaveOutcome,
    stepsOf: string -> seq<ScenarioEngine.EngineStep>)

  /** A request: a parsed JSON object, or text that does not parse as one. */
  datatype Request = Parsed(obj: Fields) | Unparsable(message: string)

  // ------------------------------------------------------------------
  // Values read from the request

  /** `parseFlexibleBoolean`: a boolean, a number (non-zero) or a string
      ("true" in any case, or "1"); nothing for a missing value, JSON null or
      anything else. */
  function ParseFlexibleBoolean(v: Option<Json>): (r: Option<bool>)
    ensures r.Some? <==> v.Some? && (v.value.JBool? || v.value.JNum? || v.value.JStr?)
  {
    match v
    case None => None
    case Some(JBool(b)) => Some(b)
    case Some(JNum(n)) => Some(NumberToInt(n) != 0)
    case Some(JStr(s)) => Some(EqualsIgnoreCase(s, "true") || s == "1")
    case Some(_) => None
  }

  /** A boolean written as a JSON boolean, as 0/1, or as "true"/"false" reads
      back as itself. */
  lemma FlexibleBooleanRoundTrip(b: bool)
    ensures ParseFlexibleBoolean(Some(JBool(b))) == Some(b)
    ensures ParseFlexibleBoolean(Some(JNum(if b then 1 else 0))) == Some(b)
    ensures ParseFlexibleBoolean(Some(JStr(ScenarioEngine.BoolText(b)))) == Some(b)
  {
    ScenarioEngine.ToBooleanBoolText(b);
  }

  /** A number reads as true unless its 32-bit conversion is 0: a Long whose
      low 32 bits are all zero reads as false, a number too wide for a Long as
      true. */
  lemma FlexibleBooleanNumbers(n: int)
    ensures n > LONG_MAX || n < LONG_MIN ==> ParseFlexibleBoolean(Some(JNum(n))) == Some(true)
    ensures ParseFlexibleBoolean(Some(JNum(0x1_0000_0000))) == Some(false)
  {
    assert NumberToInt(0x1_0000_0000) == 0 by {
      assert (0x1_0000_0000 - INT_MIN) % 0x1_0000_0000 == 0x8000_0000;
    }
  }

  /** `extractMaxStorageMb`: "MaxStorageMb" in preference to "maxStorageMb";
      a number is cut to 32 bits, a string parsed; the value is clamped to
      [0, 100]. */
  function ExtractMaxStorageMb(obj: Fields): (r: Option<int>)
    ensures r.Some? ==> 0 <= r.value <= CommLog.MAX_STORAGE_MB_LIMIT
    ensures !Has(obj, "MaxStorageMb") && !Has(obj, "maxStorageMb") ==> r.None?
  {
    var key := if Has(obj, "MaxStorageMb") then "MaxStorageMb" else "maxStorageMb";
    if !Has(obj, key) then None
    else MaxStorageValue(Opt(obj, key).value)
  }

  /** The limit one JSON value gives: a number converted to 32 bits or a
      string parsed, then clamped to [0, 100]. */
  function MaxStorageValue(v: Json): (r: Option<int>)
    ensures r.Some? ==> 0 <= r.value <= CommLog.MAX_STORAGE_MB_LIMIT
    ensures r.None? <==> !v.JNum? && !(v.JStr? && ParseInt32(v.s).Some?)
  {
    var value := match v
      case JNum(n) => Some(NumberToInt(n))
      case JStr(s) => ParseInt32(s)
      case _ => None;
    if value.Some? then Some(Clamp(value.value, 0, CommLog.MAX_STORAGE_MB_LIMIT)) else None
  }

  /** Without the upper-case key, a lower-case member appended last decides. */
  lemma MaxStorageLowerLast(obj: Fields, v: Json)
    requires !Has(obj, "MaxStorageMb")
    ensures ExtractMaxStorageMb(obj + [("maxStorageMb", v)]) == MaxStorageValue(v)
  {
    NotHasAppended(obj, "MaxStorageMb", "maxStorageMb", v);
    OptAt(obj + [("maxStorageMb", v)], |obj|, "maxStorageMb", v);
  }

  /** A number too wide for a Long is read as a Double and saturates: a huge
      limit gives the maximum, a hugely negative one gives 0. A Long is cut to
      its low 32 bits before the clamp. */
  lemma MaxStorageWideNumbers(n: int)
    ensures n > LONG_MAX ==> MaxStorageValue(JNum(n)) == Some(CommLog.MAX_STORAGE_MB_LIMIT)
    ensures n < LONG_MIN ==> MaxStorageValue(JNum(n)) == Some(0)
    ensures MaxStorageValue(JNum(0x1_0000_0005)) == Some(5)
  {
    assert NumberToInt(0x1_0000_0005) == 5 by {
      assert (0x1_0000_0005 - INT_MIN) % 0x1_0000_0000 == 0x8000_0005;
    }
  }

  /** A limit in range, written as a number or as its decimal text, is read
      back as itself when the upper-case key is absent. */
  lemma MaxStorageRoundTrip(obj: Fields, n: int)
    requires 0 <= n <= CommLog.MAX_STORAGE_MB_LIMIT && !Has(obj, "MaxStorageMb")
    ensures ExtractMaxStorageMb(obj + [("maxStorageMb", JNum(n))]) == Some(n)
    ensures ExtractMaxStorageMb(obj + [("maxStorageMb", JStr(IntToString(n)))]) == Some(n)
  {
    MaxStorageLowerLast(obj, JNum(n));
    MaxStorageLowerLast(obj, JStr(IntToString(n)));
    ParseIntToString(n);
  }

  /** The upper-case key wins over the lower-case one. */
  lemma MaxStoragePrefersUpper(obj: Fields, n: int, m: int)
    requires 0 <= n <= CommLog.MAX_STORAGE_MB_LIMIT
    ensures ExtractMaxStorageMb(obj + [("maxStorageMb", JNum(m)), ("MaxStorageMb", JNum(n))]) == Some(n)
  {
    var o := obj + [("maxStorageMb", JNum(m)), ("MaxStorageMb", JNum(n))];
    OptAt(o, |obj| + 1, "MaxStorageMb", JNum(n));
  }

  lemma NotHasAppended(obj: Fields, key: string, other: string, v: Json)
    requires !Has(obj, key) && key != other
    ensures !Has(obj + [(other, v)], key)
  {
    assert forall i :: 0 <= i < |obj| ==> obj[i].0 != key;
  }

  /** The path a log-settings or save object names: "Path", else "path". */
  function PathOf(obj: Fields): string {
    OptStringOr(obj, "Path", OptString(obj, "path"))
  }

  /** `obj.opt("Save") ?: obj.opt("save")` */
  function SaveValue(obj: Fields): (r: Option<Json>)
    ensures r.Some? <==> Has(obj, "Save") || Has(obj, "save")
  {
    if Opt(obj, "Save").Some? then Opt(obj, "Save") else Opt(obj, "save")
  }

  /** The save decision of a save object: "Enabled" decides when present,
      else a nested boolean "Save"/"save", else whether a path is named. */
  function ShouldSave(obj: Fields): (r: bool)
    ensures Has(obj, "Enabled") ==> r == OptBoolean(obj, "Enabled", false)
    ensures !Has(obj, "Enabled") && SaveValue(obj).Some? && SaveValue(obj).value.JBool? ==>
      r == SaveValue(obj).value.b
    ensures !Has(obj, "Enabled") && !(SaveValue(obj).Some? && SaveValue(obj).value.JBool?) ==>
      r == !IsBlank(PathOf(obj))
  {
    var nested := SaveValue(obj);
    if Has(obj, "Enabled") then OptBoolean(obj, "Enabled", false)
    else if nested.Some? && nested.value.JBool? then nested.value.b
    else !IsBlank(PathOf(obj))
  }

  /** The strings an "Add"/"Remove" value names: a non-blank string, or the
      non-blank `optString` texts of an array; nothing otherwise. */
  function Items(v: Option<Json>): (r: seq<string>)
    ensures forall x :: x in r ==> !IsBlank(x)
  {
    match v
    case Some(JStr(s)) => if IsBlank(s) then [] else [s]
    case Some(JArr(items)) => NonBlankTexts(items)
    case _ => []
  }

  function NonBlankTexts(items: seq<Json>): (r: seq<string>)
    ensures forall x :: x in r ==> !IsBlank(x)
    ensures forall x :: x in r <==> exists i :: 0 <= i < |items| && ValueText(items[i]) == x && !IsBlank(x)
  {
    if |items| == 0 then []
    else
      var init := NonBlankTexts(items[..|items| - 1]);
      var t := ValueText(items[|items| - 1]);
      assert forall i :: 0 <= i < |items| - 1 ==> items[..|items| - 1][i] == items[i];
      if IsBlank(t) then init else init + [t]
  }

  /** The scenarios an "Add" value of the scenarios section describes: one
      object, or the objects of an array (other elements skipped); objects
      with a blank name give none. */
  function ScenarioAdds(v: Option<Json>): seq<ScenarioData.Scenario> {
    match v
    case Some(JObj(o)) =>
      if ScenarioData.ScenarioFromJson(o).Some? then [ScenarioData.ScenarioFromJson(o).value] else []
    case Some(JArr(items)) => ParsedScenarios(items)
    case _ => []
  }

  function ParsedScenarios(items: seq<Json>): seq<ScenarioData.Scenario> {
    if |items| == 0 then []
    else
      var init := ParsedScenarios(items[..|items| - 1]);
      var it := items[|items| - 1];
      if it.JObj? && ScenarioData.ScenarioFromJson(it.fields).Some? then
        init + [ScenarioData.ScenarioFromJson(it.fields).value]
      else init
  }

  /** Applying `f` to each item in turn, first to last. */
  function FoldItems<T>(st: AppState, items: seq<T>, f: (AppState, T) -> AppState): AppState {
    if |items| == 0 then st else f(FoldItems(st, items[..|items| - 1], f), items[|items| - 1])
  }

  lemma FoldAppend<T>(st: AppState, items: seq<T>, x: T, f: (AppState, T) -> AppState)
    ensures FoldItems(st, items + [x], f) == f(FoldItems(st, items, f), x)
  {
    assert (items + [x])[..|items|] == items;
  }

  // ------------------------------------------------------------------
  // The managers' operations, on the state record

  /** `CommunicationLog.add(message, true, success)` at the current time. */
  function Log(st: AppState, message: string, success: bool, env: Env): AppState {
    st.(log := CommLog.Appended(st.log, CommLog.Entry(message, true, Some(success), env.now)))
  }

  function AddAid(st: AppState, aid: string): AppState {
    st.(aids := st.aids + {aid})
  }

  function RemoveAid(st: AppState, aid: string): AppState {
    st.(aids := st.aids - {aid})
  }

  /** `CommunicationFilter.add`: an upper-cased valid pattern bumps the version. */
  function AddFilter(st: AppState, p: string): AppState {
    if Filters.IsValidPattern(Upper(p)) then st.(filters := Filters.AfterAdd(st.filters, p), version := st.version + 1)
    else st
  }

  function RemoveFilter(st: AppState, p: string): AppState {
    st.(filters := Filters.AfterRemove(st.filters, p), version := st.version + 1)
  }

  function ClearFilters(st: AppState): AppState {
    st.(filters := [], version := st.version + 1)
  }

  /** `ScenarioManager.setCurrent(name)`: the steps for the name, step state reset. */
  function SetCurrent(st: AppState, name: Option<string>, env: Env): AppState {
    var steps := if name.Some? then env.stepsOf(name.value) else [];
    st.(engine := ScenarioEngine.Reset(st.engine.(current := name, steps := steps)))
  }

  /** `ScenarioManager.setRunning(on)` */
  function SetRunning(st: AppState, on: bool, env: Env): AppState {
    var name := st.engine.current;
    var s := st.(engine := st.engine.(running := on));
    if on && name.Some? then Log(s, ScenarioEngine.StartedMessage(name.value), true, env)
    else if !on && name.Some? then Log(s.(engine := ScenarioEngine.Reset(s.engine)), ScenarioEngine.StoppedMessage(name.value), false, env)
    else if !on then s.(engine := ScenarioEngine.Reset(s.engine))
    else s
  }

  /** `ScenarioManager.toggleSilence()` */
  function ToggleSilence(st: AppState, env: Env): AppState {
    var silenced := !st.engine.silenced;
    var s := st.(engine := st.engine.(silenced := silenced));
    Log(s, ScenarioEngine.SilenceMessage(st.engine.current, silenced), !silenced, env)
  }

  /** `ScenarioManager.addScenario`: replaces every scenario of that name by
      the new one at the end. */
  function AddScenario(st: AppState, sc: ScenarioData.Scenario): AppState {
    st.(scenarios := ScenarioData.WithoutName(st.scenarios, sc.name) + [sc])
  }

  /** `ScenarioManager.removeScenario`: drops the name, and clears the current
      scenario when it was that one. */
  function RemoveScenario(st: AppState, name: string, env: Env): AppState {
    var s := st.(scenarios := ScenarioData.WithoutName(st.scenarios, name));
    if st.engine.current == Some(name) then SetCurrent(s, None, env) else s
  }

  function ClearScenarios(st: AppState, env: Env): AppState {
    SetCurrent(st.(scenarios := []), None, env)
  }

  // ------------------------------------------------------------------
  // Log settings

  /** `updateLogPath(raw)`: an invalid path is logged as a failure; a valid one
      is sanitized and stored, and a change of directory is logged. */
  function UpdateLogPath(st: AppState, raw: string, env: Env): AppState {
    match env.validate(raw)
    case PathBad(reason) =>
      var why := if reason.Some? then reason.value else "Invalid path";
      Log(st, "STATE-COMM: Invalid log path (" + raw + "): " + why, false, env)
    case PathOk(v) =>
      var sanitized := CommLog.SanitizePath(v);
      var s := st.(logPath := sanitized);
      if sanitized != st.logPath then Log(s, "STATE-COMM: Log directory " + env.resolve(sanitized), true, env) else s
  }

  /** `updateMaxStorage(value)`: stores the clamped value, logging a change. */
  function UpdateMaxStorage(st: AppState, value: int, env: Env): (r: AppState)
    ensures r.maxStorageMb == Clamp(value, 0, CommLog.MAX_STORAGE_MB_LIMIT)
    ensures r.maxStorageMb == st.maxStorageMb ==> r == st
  {
    var applied := Clamp(value, 0, CommLog.MAX_STORAGE_MB_LIMIT);
    var s := st.(maxStorageMb := applied);
    if applied != st.maxStorageMb then Log(s, "STATE-COMM: Log storage limit " + IntToString(applied) + "MB", true, env) else s
  }

  /** `performLogSave`: logs where the log was saved, or why it was not. */
  function PerformLogSave(st: AppState, env: Env): AppState {
    match env.save
    case Saved(path) => Log(st, "STATE-COMM: Log saved " + path, true, env)
    case SaveFailed(m) => Log(st, "STATE-COMM: Save error (" + m + ")", false, env)
  }

  /** `handleSaveObject` */
  function HandleSaveObject(st: AppState, obj: Fields, env: Env): AppState {
    var path := PathOf(obj);
    var s1 := if !IsBlank(path) then UpdateLogPath(st, path, env) else st;
    var s2 := if ExtractMaxStorageMb(obj).Some? then UpdateMaxStorage(s1, ExtractMaxStorageMb(obj).value, env) else s1;
    if ShouldSave(obj) then PerformLogSave(s2, env) else s2
  }

  /** `handleSaveRequest`: true saves, a string sets the path and saves, an
      object is a save object; anything else does nothing. */
  function HandleSaveRequest(st: AppState, request: Option<Json>, env: Env): AppState {
    match request
    case Some(JBool(b)) => if b then PerformLogSave(st, env) else st
    case Some(JStr(s)) => PerformLogSave(UpdateLogPath(st, s, env), env)
    case Some(JObj(o)) => HandleSaveObject(st, o, env)
    case _ => st
  }

  /** `handleLogSettings` */
  function HandleLogSettings(st: AppState, obj: Fields, env: Env): AppState {
    var path := PathOf(obj);
    var s1 := if !IsBlank(path) then UpdateLogPath(st, path, env) else st;
    var s2 := if ExtractMaxStorageMb(obj).Some? then UpdateMaxStorage(s1, ExtractMaxStorageMb(obj).value, env) else s1;
    if Has(obj, "Save") || Has(obj, "save") then HandleSaveRequest(s2, SaveValue(obj), env) else s2
  }

  // ------------------------------------------------------------------
  // The sections

  /** `handleAid` */
  function AidSection(st: AppState, obj: Fields): AppState {
    var enabled := ParseFlexibleBoolean(Opt(obj, "Enabled"));
    var s1 := if enabled.Some? then st.(nfcEnabled := enabled) else st;
    var s2 := if OptBoolean(obj, "Clear", false) then s1.(aids := {}) else s1;
    var s3 := FoldItems(s2, Items(Opt(obj, "Add")), AddAid);
    FoldItems(s3, Items(Opt(obj, "Remove")), RemoveAid)
  }

  /** `handleFilters` */
  function FiltersSection(st: AppState, obj: Fields): AppState {
    var s1 := if OptBoolean(obj, "Clear", false) then ClearFilters(st) else st;
    var s2 := FoldItems(s1, Items(Opt(obj, "Add")), AddFilter);
    FoldItems(s2, Items(Opt(obj, "Remove")), RemoveFilter)
  }

  /** `handleScenarios` */
  function ScenariosSection(st: AppState, obj: Fields, env: Env): AppState {
    var s1 := if OptBoolean(obj, "Clear", false) then ClearScenarios(st, env) else st;
    var s2 := FoldItems(s1, ScenarioAdds(Opt(obj, "Add")), AddScenario);
    var s3 := FoldItems(s2, Items(Opt(obj, "Remove")), (s: AppState, n: string) => RemoveScenario(s, n, env));
    var current := OptString(obj, "Current");
    if !IsBlank(current) then SetCurrent(s3, Some(current), env) else s3
  }

  /** The NFC switch of the comm section: "NfcEnabled", else "EnableNfc". */
  function NfcToggle(obj: Fields): Option<Json> {
    if Has(obj, "NfcEnabled") then Opt(obj, "NfcEnabled")
    else if Has(obj, "EnableNfc") then Opt(obj, "EnableNfc")
    else None
  }

  /** `handleComm`: the new state and whether the log was cleared. */
  function CommSection(st: AppState, obj: Fields, env: Env): (AppState, bool) {
    var cleared := OptBoolean(obj, "Clear", false);
    var s1 := if cleared then st.(log := []) else st;
    var s2 := if OptObject(obj, "Logs").Some? then HandleLogSettings(s1, OptObject(obj, "Logs").value, env) else s1;
    var s3 := if Has(obj, "Save") then HandleSaveRequest(s2, Opt(obj, "Save"), env) else s2;
    var s4 := if Has(obj, "Mute") && OptBoolean(obj, "Mute", false) != s3.engine.silenced then ToggleSilence(s3, env) else s3;
    var nfc := ParseFlexibleBoolean(NfcToggle(obj));
    var s5 := if nfc.Some? then s4.(nfcEnabled := nfc) else s4;
    var command := OptString(obj, "CurrentScenario");
    var s6 :=
      if command == "Start" then SetRunning(s5, true, env)
      else if command == "Stop" then SetRunning(s5, false, env)
      else if command == "Clear" then SetCurrent(if s5.engine.running then SetRunning(s5, false, env) else s5, None, env)
      else s5;
    (s6, cleared)
  }

  /** The message `handleReset` leaves in the log. */
  const RESET_MESSAGE: string := "STATE-APP: Reset executed."

  /** `handleReset` */
  function ResetAll(st: AppState, env: Env): AppState {
    var s1 := SetRunning(st, false, env);
    var s2 := ClearScenarios(s1, env);
    var s3 := ClearFilters(s2.(aids := {}));
    Log(s3.(log := []), RESET_MESSAGE, true, env)
  }

  /** The section a non-blank `Type` names; an unknown type does nothing. */
  function Typed(st: AppState, obj: Fields, kind: string, env: Env): (AppState, bool) {
    if kind == "Aid" then (AidSection(st, obj), false)
    else if kind == "Comm" then CommSection(st, obj, env)
    else if kind == "Scenarios" then (ScenariosSection(st, obj, env), false)
    else if kind == "Filters" then (FiltersSection(st, obj), false)
    else if kind == "Reset" then (ResetAll(st, env), false)
    else (st, false)
  }

  /** Without a `Type`, the sections present, in the order Aid, Comm,
      Scenarios, Filters, Reset. */
  function Untyped(st: AppState, obj: Fields, env: Env): (AppState, bool) {
    var s1 := if OptObject(obj, "Aid").Some? then AidSection(st, OptObject(obj, "Aid").value) else st;
    var c := if OptObject(obj, "Comm").Some? then CommSection(s1, OptObject(obj, "Comm").value, env) else (s1, false);
    var s3 := if OptObject(obj, "Scenarios").Some? then ScenariosSection(c.0, OptObject(obj, "Scenarios").value, env) else c.0;
    var s4 := if OptObject(obj, "Filters").Some? then FiltersSection(s3, OptObject(obj, "Filters").value) else s3;
    var s5 := if Has(obj, "Reset") then ResetAll(s4, env) else s4;
    (s5, c.1)
  }

  /** `handle(jsonStr)`: the new state and whether the log was cleared. */
  function Handle(st: AppState, request: Request, env: Env): (AppState, bool) {
    match request
    case Unparsable(m) => (Log(st, "JSON ERR: " + m, false, env), false)
    case Parsed(obj) =>
      var kind := OptString(obj, "Type");
      if !IsBlank(kind) then Typed(st, obj, kind, env) else Untyped(st, obj, env)
  }

  // ------------------------------------------------------------------
  // What the handler promises

  /** Text that is no JSON object leaves one failure entry and nothing else. */
  lemma UnparsableLogsError(st: AppState, m: string, env: Env)
    ensures Handle(st, Unparsable(m), env).1 == false
    ensures var r := Handle(st, Unparsable(m), env).0;
      r == st.(log := r.log) && r.log == CommLog.Appended(st.log, CommLog.Entry("JSON ERR: " + m, true, Some(false), env.now))
  {
  }

  /** With a `Type`, the result is true only for a comm section that clears
      the log, and an unknown type changes nothing. */
  lemma TypedResult(st: AppState, obj: Fields, env: Env)
    requires !IsBlank(OptString(obj, "Type"))
    ensures var kind := OptString(obj, "Type");
      Handle(st, Parsed(obj), env).1 <==> kind == "Comm" && OptBoolean(obj, "Clear", false)
    ensures var kind := OptString(obj, "Type");
      kind !in {"Aid", "Comm", "Scenarios", "Filters", "Reset"} ==> Handle(st, Parsed(obj), env) == (st, false)
  {
  }

  /** Without a `Type`, the result is true iff a comm section cleared the log. */
  lemma UntypedResult(st: AppState, obj: Fields, env: Env)
    requires IsBlank(OptString(obj, "Type"))
    ensures Handle(st, Parsed(obj), env).1 <==>
      OptObject(obj, "Comm").Some? && OptBoolean(OptObject(obj, "Comm").value, "Clear", false)
  {
  }

  /** The AID section changes the AIDs and the NFC switch alone. */
  lemma AidFoldsOnlyAids(st: AppState, obj: Fields)
    ensures var r := AidSection(st, obj);
      r == st.(aids := r.aids, nfcEnabled := r.nfcEnabled)
  {
    var enabled := ParseFlexibleBoolean(Opt(obj, "Enabled"));
    var s1 := if enabled.Some? then st.(nfcEnabled := enabled) else st;
    var s2 := if OptBoolean(obj, "Clear", false) then s1.(aids := {}) else s1;
    var adds := Items(Opt(obj, "Add"));
    var removes := Items(Opt(obj, "Remove"));
    FoldAddAids(s2, adds);
    FoldRemoveAids(FoldItems(s2, adds, AddAid), removes);
  }

  lemma {:induction false} FoldAddAids(st: AppState, xs: seq<string>)
    ensures FoldItems(st, xs, AddAid) == st.(aids := st.aids + SetOf(xs))
  {
    if |xs| > 0 {
      var init := xs[..|xs| - 1];
      FoldAddAids(st, init);
      assert SetOf(xs) == SetOf(init) + {xs[|xs| - 1]} by {
        assert xs == init + [xs[|xs| - 1]];
      }
    }
  }

  lemma {:induction false} FoldRemoveAids(st: AppState, xs: seq<string>)
    ensures FoldItems(st, xs, RemoveAid) == st.(aids := st.aids - SetOf(xs))
  {
    if |xs| > 0 {
      var init := xs[..|xs| - 1];
      FoldRemoveAids(st, init);
      assert SetOf(xs) == SetOf(init) + {xs[|xs| - 1]} by {
        assert xs == init + [xs[|xs| - 1]];
      }
    }
  }

  /** The AID section: clear first, then add, then remove, so the AIDs end as
      ((Clear ? {} : before) + added) - removed. */
  lemma AidSectionSets(st: AppState, obj: Fields)
    ensures AidSection(st, obj).aids ==
      ((if OptBoolean(obj, "Clear", false) then {} else st.aids) + SetOf(Items(Opt(obj, "Add"))))
        - SetOf(Items(Opt(obj, "Remove")))
  {
    AidFoldsOnlyAids(st, obj);
    var enabled := ParseFlexibleBoolean(Opt(obj, "Enabled"));
    var s1 := if enabled.Some? then st.(nfcEnabled := enabled) else st;
    var s2 := if OptBoolean(obj, "Clear", false) then s1.(aids := {}) else s1;
    FoldAddAids(s2, Items(Opt(obj, "Add")));
    FoldRemoveAids(FoldItems(s2, Items(Opt(obj, "Add")), AddAid), Items(Opt(obj, "Remove")));
  }

  /** Patterns of `ps` that `add` accepts, upper-cased. */
  function ValidAdds(ps: seq<string>): set<string> {
    set p | p in ps && Filters.IsValidPattern(Upper(p)) :: Upper(p)
  }

  function CountValid(ps: seq<string>): nat {
    if |ps| == 0 then 0
    else CountValid(ps[..|ps| - 1]) + (if Filters.IsValidPattern(Upper(ps[|ps| - 1])) then 1 else 0)
  }

  lemma {:induction false} FoldAddFilters(st: AppState, ps: seq<string>)
    ensures var r := FoldItems(st, ps, AddFilter);
      r == st.(filters := r.filters, version := r.version)
      && r.version == st.version + CountValid(ps)
      && forall x :: x in r.filters <==> x in st.filters || x in ValidAdds(ps)
  {
    if |ps| > 0 {
      var init := ps[..|ps| - 1];
      var p := ps[|ps| - 1];
      FoldAddFilters(st, init);
      assert ps == init + [p];
      assert ValidAdds(ps) == ValidAdds(init) + (if Filters.IsValidPattern(Upper(p)) then {Upper(p)} else {});
    }
  }

  lemma {:induction false} FoldRemoveFilters(st: AppState, ps: seq<string>)
    ensures var r := FoldItems(st, ps, RemoveFilter);
      r == st.(filters := r.filters, version := r.version)
      && r.version == st.version + |ps|
      && forall x :: x in r.filters <==> x in st.filters && x !in ps
  {
    if |ps| > 0 {
      var init := ps[..|ps| - 1];
      var p := ps[|ps| - 1];
      FoldRemoveFilters(st, init);
      assert ps == init + [p];
      forall x ensures x in Filters.AfterRemove(FoldItems(st, init, RemoveFilter).filters, p) <==>
        x in FoldItems(st, init, RemoveFilter).filters && x != p
      {
      }
    }
  }

  /** The filters section: clear first, then add, then remove. A pattern ends
      in the list iff it was there (and not cleared) or was validly added,
      and was not removed; the version counts each change. */
  lemma FiltersSectionResult(st: AppState, obj: Fields)
    ensures var r := FiltersSection(st, obj);
      var clear := OptBoolean(obj, "Clear", false);
      var adds := Items(Opt(obj, "Add"));
      var removes := Items(Opt(obj, "Remove"));
      r == st.(filters := r.filters, version := r.version)
      && r.version == st.version + (if clear then 1 else 0) + CountValid(adds) + |removes|
      && forall x :: x in r.filters <==>
        ((!clear && x in st.filters) || x in ValidAdds(adds)) && x !in removes
  {
    var clear := OptBoolean(obj, "Clear", false);
    var s1 := if clear then ClearFilters(st) else st;
    var adds := Items(Opt(obj, "Add"));
    FoldAddFilters(s1, adds);
    FoldRemoveFilters(FoldItems(s1, adds, AddFilter), Items(Opt(obj, "Remove")));
  }

  function NamesOf(scs: seq<ScenarioData.Scenario>): set<string> {
    set sc | sc in scs :: sc.name
  }

  /** Storing one scenario adds its name and keeps every other stored name. */
  lemma AddScenarioNames(before: seq<ScenarioData.Scenario>, sc: ScenarioData.Scenario)
    ensures NamesOf(ScenarioData.WithoutName(before, sc.name) + [sc]) == NamesOf(before) + {sc.name}
  {
    var after := ScenarioData.WithoutName(before, sc.name) + [sc];
    forall n | n in NamesOf(before) ensures n in NamesOf(after) {
      var o :| o in before && o.name == n;
      if n != sc.name {
        assert o in after;
      } else {
        assert sc in after;
      }
    }
    assert sc in after;
  }

  /** Removing a name drops exactly that name. */
  lemma RemoveScenarioNames(before: seq<ScenarioData.Scenario>, n: string)
    ensures NamesOf(ScenarioData.WithoutName(before, n)) == NamesOf(before) - {n}
  {
    forall m | m in NamesOf(before) - {n} ensures m in NamesOf(ScenarioData.WithoutName(before, n)) {
      var o :| o in before && o.name == m;
      assert o in ScenarioData.WithoutName(before, n);
    }
  }

  lemma {:induction false} FoldAddScenarios(st: AppState, scs: seq<ScenarioData.Scenario>)
    ensures var r := FoldItems(st, scs, AddScenario);
      r == st.(scenarios := r.scenarios) && NamesOf(r.scenarios) == NamesOf(st.scenarios) + NamesOf(scs)
  {
    if |scs| > 0 {
      var init := scs[..|scs| - 1];
      var sc := scs[|scs| - 1];
      FoldAddScenarios(st, init);
      InitLast(scs);
      assert NamesOf(scs) == NamesOf(init) + {sc.name};
      AddScenarioNames(FoldItems(st, init, AddScenario).scenarios, sc);
    }
  }

  lemma {:induction false} FoldRemoveScenarios(st: AppState, names: seq<string>, env: Env)
    ensures var r := FoldItems(st, names, (s: AppState, n: string) => RemoveScenario(s, n, env));
      NamesOf(r.scenarios) == NamesOf(st.scenarios) - SetOf(names)
      && r.aids == st.aids && r.filters == st.filters && r.version == st.version && r.log == st.log
  {
    if |names| > 0 {
      var init := names[..|names| - 1];
      var n := names[|names| - 1];
      FoldRemoveScenarios(st, init, env);
      InitLast(names);
      assert SetOf(names) == SetOf(init) + {n};
      var before := FoldItems(st, init, (s: AppState, n: string) => RemoveScenario(s, n, env)).scenarios;
      RemoveScenarioNames(before, n);
    }
  }

  /** The scenarios section: clear first, then add, then remove, so the stored
      names end as ((Clear ? {} : before) + added) - removed. */
  lemma ScenariosSectionNames(st: AppState, obj: Fields, env: Env)
    ensures NamesOf(ScenariosSection(st, obj, env).scenarios) ==
      ((if OptBoolean(obj, "Clear", false) then {} else NamesOf(st.scenarios)) + NamesOf(ScenarioAdds(Opt(obj, "Add"))))
        - SetOf(Items(Opt(obj, "Remove")))
  {
    var s1 := if OptBoolean(obj, "Clear", false) then ClearScenarios(st, env) else st;
    FoldAddScenarios(s1, ScenarioAdds(Opt(obj, "Add")));
    FoldRemoveScenarios(FoldItems(s1, ScenarioAdds(Opt(obj, "Add")), AddScenario), Items(Opt(obj, "Remove")), env);
  }

  /** Reset stops the scenario, empties the scenario store, the AIDs, the
      filters and the log, and leaves exactly the one reset entry. */
  lemma ResetOutcome(st: AppState, env: Env)
    ensures var r := ResetAll(st, env);
      r.log == [CommLog.Entry(RESET_MESSAGE, true, Some(true), env.now)]
      && !r.engine.running && r.engine.current.None? && r.engine.steps == []
      && r.engine.stepIndex == 0 && !r.engine.isSelected && r.engine.singleConsumed == {}
      && r.scenarios == [] && r.aids == {} && r.filters == []
      && r.version == st.version + 1
  {
  }

  /** A save object saves (logs a save outcome) exactly when `ShouldSave`
      says so, given a valid path or none. */
  lemma SaveObjectSaves(st: AppState, obj: Fields, env: Env)
    requires IsBlank(PathOf(obj)) && ExtractMaxStorageMb(obj).None?
    ensures ShouldSave(obj) ==> HandleSaveObject(st, obj, env) == PerformLogSave(st, env)
    ensures !ShouldSave(obj) ==> HandleSaveObject(st, obj, env) == st
  {
  }

  // ------------------------------------------------------------------
  // The handler's loops

  /** The loop over an "Add"/"Remove" value: one string, or each non-blank
      `optString` of an array. */
  method ApplyItems(st: AppState, v: Option<Json>, f: (AppState, string) -> AppState) returns (r: AppState)
    ensures r == FoldItems(st, Items(v), f)
  {
    match v {
      case Some(JStr(s)) =>
        r := if IsBlank(s) then st else f(st, s);
        if !IsBlank(s) {
          assert [s][..0] == [];
        }
      case Some(JArr(items)) =>
        r := ApplyItemArray(st, items, f);
      case _ =>
        r := st;
    }
  }

  /** The array case: each non-blank `optString` of the array, in order. */
  method ApplyItemArray(st: AppState, items: seq<Json>, f: (AppState, string) -> AppState) returns (r: AppState)
    ensures r == FoldItems(st, NonBlankTexts(items), f)
  {
    r := st;
    var i := 0;
    while i < |items|
      invariant 0 <= i <= |items|
      invariant r == FoldItems(st, NonBlankTexts(items[..i]), f)
    {
      var t := ValueText(items[i]);
      assert items[..i + 1][..i] == items[..i];
      if !IsBlank(t) {
        FoldAppend(st, NonBlankTexts(items[..i]), t, f);
        r := f(r, t);
      }
      i := i + 1;
    }
    assert items[..i] == items;
  }

  /** The loop over the scenarios "Add" value: one object, or each object of
      an array. */
  method ApplyScenarioAdds(st: AppState, v: Option<Json>) returns (r: AppState)
    ensures r == FoldItems(st, ScenarioAdds(v), AddScenario)
  {
    match v {
      case Some(JObj(o)) =>
        var parsed := ScenarioData.ScenarioFromJson(o);
        r := if parsed.Some? then AddScenario(st, parsed.value) else st;
        if parsed.Some? {
          assert [parsed.value][..0] == [];
        }
      case Some(JArr(items)) =>
        r := ApplyScenarioArray(st, items);
      case _ =>
        r := st;
    }
  }

  /** The array case: each element that is an object naming a scenario. */
  method ApplyScenarioArray(st: AppState, items: seq<Json>) returns (r: AppState)
    ensures r == FoldItems(st, ParsedScenarios(items), AddScenario)
  {
    r := st;
    var i := 0;
    while i < |items|
      invariant 0 <= i <= |items|
      invariant r == FoldItems(st, ParsedScenarios(items[..i]), AddScenario)
    {
      assert items[..i + 1][..i] == items[..i];
      if items[i].JObj? {
        var parsed := ScenarioData.ScenarioFromJson(items[i].fields);
        if parsed.Some? {
          FoldAppend(st, ParsedScenarios(items[..i]), parsed.value, AddScenario);
          r := AddScenario(r, parsed.value);
        }
      }
      i := i + 1;
    }
    assert items[..i] == items;
  }

  /** `handleAid` */
  method HandleAid(st: AppState, obj: Fields) returns (r: AppState)
    ensures r == AidSection(st, obj)
  {
    r := st;
    var enabled := ParseFlexibleBoolean(Opt(obj, "Enabled"));
    if enabled.Some? {
      r := r.(nfcEnabled := enabled);
    }
    if OptBoolean(obj, "Clear", false) {
      r := r.(aids := {});
    }
    r := ApplyItems(r, Opt(obj, "Add"), AddAid);
    r := ApplyItems(r, Opt(obj, "Remove"), RemoveAid);
  }

  /** `handleFilters` */
  method HandleFilters(st: AppState, obj: Fields) returns (r: AppState)
    ensures r == FiltersSection(st, obj)
  {
    r := st;
    if OptBoolean(obj, "Clear", false) {
      r := ClearFilters(r);
    }
    r := ApplyItems(r, Opt(obj, "Add"), AddFilter);
    r := ApplyItems(r, Opt(obj, "Remove"), RemoveFilter);
  }

  /** `handleScenarios` */
  method HandleScenarios(st: AppState, obj: Fields, env: Env) returns (r: AppState)
    ensures r == ScenariosSection(st, obj, env)
  {
    r := st;
    if OptBoolean(obj, "Clear", false) {
      r := ClearScenarios(r, env);
    }
    r := ApplyScenarioAdds(r, Opt(obj, "Add"));
    r := ApplyItems(r, Opt(obj, "Remove"), (s: AppState, n: string) => RemoveScenario(s, n, env));
    var current := OptString(obj, "Current");
    if !IsBlank(current) {
      r := SetCurrent(r, Some(current), env);
    }
  }

  /** `handle(jsonStr)`, running the sections through their loops. */
  method HandleRequest(st: AppState, request: Request, env: Env) returns (r: AppState, cleared: bool)
    ensures (r, cleared) == Handle(st, request, env)
  {
    match request {
      case Unparsable(m) =>
        return Log(st, "JSON ERR: " + m, false, env), false;
      case Parsed(obj) =>
        var kind := OptString(obj, "Type");
        if !IsBlank(kind) {
          r, cleared := HandleTyped(st, obj, kind, env);
        } else {
          r, cleared := HandleSections(st, obj, env);
        }
    }
  }

  /** A request with a `Type`: the one section it names. */
  method HandleTyped(st: AppState, obj: Fields, kind: string, env: Env) returns (r: AppState, cleared: bool)
    ensures (r, cleared) == Typed(st, obj, kind, env)
  {
    cleared := false;
    r := st;
    if kind == "Aid" {
      r := HandleAid(st, obj);
    } else if kind == "Comm" {
      r, cleared := CommSection(st, obj, env).0, CommSection(st, obj, env).1;
    } else if kind == "Scenarios" {
      r := HandleScenarios(st, obj, env);
    } else if kind == "Filters" {
      r := HandleFilters(st, obj);
    } else if kind == "Reset" {
      r := ResetAll(st, env);
    }
  }

  /** A request without a `Type`: each section object present, in order. */
  method HandleSections(st: AppState, obj: Fields, env: Env) returns (r: AppState, cleared: bool)
    ensures (r, cleared) == Untyped(st, obj, env)
  {
    cleared := false;
    r := st;
    if OptObject(obj, "Aid").Some? {
      r := HandleAid(r, OptObject(obj, "Aid").value);
    }
    if OptObject(obj, "Comm").Some? {
      var c := CommSection(r, OptObject(obj, "Comm").value, env);
      r := c.0;
      if c.1 {
        cleared := true;
      }
    }
    if OptObject(obj, "Scenarios").Some? {
      r := HandleScenarios(r, OptObject(obj, "Scenarios").value, env);
    }
    if OptObject(obj, "Filters").Some? {
      r := HandleFilters(r, OptObject(obj, "Filters").value);
    }
    if Has(obj, "Reset") {
      r := ResetAll(r, env);
    }
  }
}
