/** The APDU scenario engine: the current scenario, whether it runs or is
    silenced, and the state machine that walks the scenario's Select and
    Request/Response steps as command APDUs arrive (SELECT by name as in
    section 7.1.1 of ISO/IEC 7816-4:2005, status words as in section 5.1.3).
    Also the engine's own scenario store, one line per scenario. */
module ScenarioEngine {
  import opened Common
  import opened Settings
  import CommLog

  // ------------------------------------------------------------------
  // Steps

  datatype StepType = Select | RequestResponse

  /** The engine's step: seven fields, unlike the three-field step the
      scenario screens edit. */
  datatype EngineStep = EngineStep(
    name: string, kind: StepType, aid: string, singleSelect: bool,
    request: string, response: string, needsSelection: bool)

  datatype EngineScenario = EngineScenario(name: string, steps: seq<EngineStep>)

  // ------------------------------------------------------------------
  // Hex

  function HexDigit(d: nat): (c: char)
    requires d < 16
    ensures IsUpperHexChar(c)
  {
    if d < 10 then ('0' as int + d) as char else ('A' as int + d - 10) as char
  }

  /** `"%02X".format(b)` for every byte, concatenated (`ByteArray.toHex`). */
  function ToHex(bytes: seq<byte>): (r: string)
    ensures |r| == 2 * |bytes|
    ensures AllUpperHex(r)
    ensures forall i :: 0 <= i < |bytes| ==>
      r[2 * i] == HexDigit(bytes[i] / 16) && r[2 * i + 1] == HexDigit(bytes[i] % 16)
  {
    if |bytes| == 0 then ""
    else
      var rest := ToHex(bytes[1..]);
      var r := [HexDigit(bytes[0] / 16), HexDigit(bytes[0] % 16)] + rest;
      assert forall i :: 1 <= i < |bytes| ==> bytes[i] == bytes[1..][i - 1];
      r
  }

  /** The value of an upper-case hex digit (`Character.digit(c, 16)` after
      `uppercase()`). */
  function HexValue(c: char): (r: Option<nat>)
    ensures r.Some? <==> IsUpperHexChar(c)
    ensures r.Some? ==> r.value < 16
    ensures forall d :: 0 <= d < 16 ==> (c == HexDigit(d) ==> r == Some(d))
  {
    if IsDigit(c) then Some(c as int - '0' as int)
    else if 'A' <= c <= 'F' then Some(c as int - 'A' as int + 10)
    else None
  }

  /** `substring(2 * i, 2 * i + 2).toInt(16)`: two hex digits, or a sign
      followed by one; None where the JVM throws NumberFormatException. */
  function PairAt(s: string, i: nat): (r: Option<int>)
    requires 2 * i + 1 < |s|
    ensures r.Some? ==> -15 <= r.value < 256
  {
    var hi, lo := s[2 * i], s[2 * i + 1];
    if HexValue(lo).None? then None
    else if hi == '-' then Some(0 - HexValue(lo).value)
    else if hi == '+' then Some(HexValue(lo).value)
    else if HexValue(hi).None? then None
    else Some(HexValue(hi).value * 16 + HexValue(lo).value)
  }

  /** Int.toByte(), read back unsigned: the low eight bits. */
  function LowByte(v: int): (b: byte)
    ensures 0 <= v < 256 ==> b == v
  {
    v % 256
  }

  /** What `hexToBytes(hex)` returns: one byte per two characters of the
      upper-cased text (an odd last character is ignored), or None where it
      throws. */
  function HexDecode(hex: string): (r: Option<seq<byte>>)
    ensures r.Some? ==> |r.value| == |hex| / 2
  {
    var c := Upper(hex);
    if forall i :: 0 <= i < |c| / 2 ==> PairAt(c, i).Some? then
      Some(seq(|c| / 2, i requires 0 <= i < |c| / 2 => LowByte(PairAt(c, i).value)))
    else None
  }

  /** `hexToBytes`: fills a byte array pair by pair. */
  method HexToBytes(hex: string) returns (r: Option<seq<byte>>)
    ensures r == HexDecode(hex)
  {
    var cleaned := Upper(hex);
    var result := new byte[|cleaned| / 2];
    var i := 0;
    while i < result.Length
      invariant 0 <= i <= result.Length
      invariant forall k :: 0 <= k < i ==> PairAt(cleaned, k).Some? && result[k] == LowByte(PairAt(cleaned, k).value)
    {
      var v := PairAt(cleaned, i);
      if v.None? {
        assert !(forall k :: 0 <= k < |cleaned| / 2 ==> PairAt(cleaned, k).Some?);
        return None;
      }
      result[i] := LowByte(v.value);
      i := i + 1;
    }
    assert result[..] == seq(|cleaned| / 2, k requires 0 <= k < |cleaned| / 2 => LowByte(PairAt(cleaned, k).value));
    r := Some(result[..]);
  }

  /** Decoding the hex text of some bytes gives the bytes back. */
  lemma HexRoundTrip(bytes: seq<byte>)
    ensures HexDecode(ToHex(bytes)) == Some(bytes)
  {
    var h := ToHex(bytes);
    UpperOfUpperHex(h);
    forall i | 0 <= i < |bytes|
      ensures PairAt(h, i) == Some(bytes[i] as int)
    {
      assert HexValue(h[2 * i]) == Some(bytes[i] / 16);
      assert HexValue(h[2 * i + 1]) == Some(bytes[i] % 16);
    }
    var c := Upper(h);
    assert c == h;
    var decoded := seq(|c| / 2, i requires 0 <= i < |c| / 2 => LowByte(PairAt(c, i).value));
    assert decoded == bytes;
  }

  // ------------------------------------------------------------------
  // Command APDUs

  /** A SELECT by name: at least four bytes, starting 00 A4 04. */
  predicate IsSelectCommand(apdu: seq<byte>) {
    |apdu| >= 4 && apdu[0] == 0x00 && apdu[1] == 0xA4 && apdu[2] == 0x04
  }

  /** `extractAid`: the hex of the Lc data bytes following the five-byte header,
      or "" when the command is shorter than that. */
  function ExtractAid(apdu: seq<byte>): (r: string)
    ensures |apdu| < 5 || |apdu| < 5 + apdu[4] as int ==> r == ""
    ensures |apdu| >= 5 && |apdu| >= 5 + apdu[4] as int ==>
      |r| == 2 * apdu[4] as int && HexDecode(r) == Some(apdu[5..5 + apdu[4] as int])
    ensures AllUpperHex(r)
  {
    if |apdu| < 5 then ""
    else
      var lc := apdu[4] as int;
      if |apdu| < 5 + lc then ""
      else
        HexRoundTrip(apdu[5..5 + lc]);
        ToHex(apdu[5..5 + lc])
  }

  // ------------------------------------------------------------------
  // The state machine

  /** The engine's state: the flows (`current`, `running`, `silenced`, the
      loaded steps) and the step index, selection flag and consumed AIDs. */
  datatype Engine = Engine(
    current: Option<string>, running: bool, silenced: bool, steps: seq<EngineStep>,
    stepIndex: nat, isSelected: bool, singleConsumed: set<string>)

  /** What `processApdu` gives back: null, a response, or the
      NumberFormatException `hexToBytes` throws on a malformed step response. */
  datatype ApduResult = NoResponse | Response(data: seq<byte>) | HexError

  /** Whether the engine answers at all. */
  predicate Active(e: Engine, cmd: Option<seq<byte>>) {
    cmd.Some? && !e.silenced && e.running && e.current.Some?
  }

  /** The configured response for an unexpected command. */
  function Fallback(e: Engine, selected: DefaultResponse, unselected: DefaultResponse): ApduResult {
    Response(if e.isSelected then Data(selected) else Data(unselected))
  }

  /** What the step at the step index makes of a command that got past the
      guards: a Select step answers only its own SELECT, a Request/Response
      step its own request, and an unmatched Request/Response step falls
      through to the configured response. */
  function StepOutcome(e: Engine, apdu: seq<byte>, selected: DefaultResponse, unselected: DefaultResponse): (Engine, ApduResult)
    requires e.stepIndex < |e.steps|
  {
    var step := e.steps[e.stepIndex];
    match step.kind
    case Select =>
      if IsSelectCommand(apdu) && EqualsIgnoreCase(ExtractAid(apdu), step.aid) then
        (e.(isSelected := true,
            singleConsumed := if step.singleSelect then e.singleConsumed + {Upper(step.aid)} else e.singleConsumed,
            stepIndex := e.stepIndex + 1),
         Response([0x90, 0x00]))
      else (e, NoResponse)
    case RequestResponse =>
      if step.needsSelection == e.isSelected && EqualsIgnoreCase(ToHex(apdu), step.request) then
        (e.(stepIndex := e.stepIndex + 1),
         match HexDecode(step.response)
         case Some(bytes) => Response(bytes)
         case None => HexError)
      else (e, Fallback(e, selected, unselected))
  }

  /** `processApdu(cmd)` with the configured selected and unselected responses:
      the new state and the result. */
  function Process(e: Engine, cmd: Option<seq<byte>>, selected: DefaultResponse, unselected: DefaultResponse): (Engine, ApduResult) {
    if !Active(e, cmd) then (e, NoResponse)
    else
      var apdu := cmd.value;
      if IsSelectCommand(apdu) && ExtractAid(apdu) in e.singleConsumed then (e, NoResponse)
      else if e.stepIndex < |e.steps| then StepOutcome(e, apdu, selected, unselected)
      else (e, Fallback(e, selected, unselected))
  }

  /** A null command, silence, a stopped engine or no current scenario give no
      response and change nothing. */
  lemma InactiveIgnores(e: Engine, cmd: Option<seq<byte>>, sel: DefaultResponse, unsel: DefaultResponse)
    requires cmd.None? || e.silenced || !e.running || e.current.None?
    ensures Process(e, cmd, sel, unsel) == (e, NoResponse)
  {
  }

  /** A SELECT for an AID already consumed by a single-select step gets no
      response before any step is looked at. */
  lemma ConsumedSelectIgnored(e: Engine, apdu: seq<byte>, sel: DefaultResponse, unsel: DefaultResponse)
    requires Active(e, Some(apdu))
    requires IsSelectCommand(apdu) && ExtractAid(apdu) in e.singleConsumed
    ensures Process(e, Some(apdu), sel, unsel) == (e, NoResponse)
  {
  }

  /** A Select step answers 90 00 exactly when the command selects its AID
      (ignoring case): the card becomes selected, the step index advances and
      a single-select AID is recorded. Any other command gets no response and
      changes nothing. */
  lemma SelectStep(e: Engine, apdu: seq<byte>, sel: DefaultResponse, unsel: DefaultResponse)
    requires Active(e, Some(apdu))
    requires !(IsSelectCommand(apdu) && ExtractAid(apdu) in e.singleConsumed)
    requires e.stepIndex < |e.steps| && e.steps[e.stepIndex].kind == Select
    ensures var step := e.steps[e.stepIndex];
      var (e2, r) := Process(e, Some(apdu), sel, unsel);
      (r == Response([0x90, 0x00]) <==> IsSelectCommand(apdu) && EqualsIgnoreCase(ExtractAid(apdu), step.aid))
      && (r.Response? ==>
            e2.isSelected && e2.stepIndex == e.stepIndex + 1
            && e2.singleConsumed == e.singleConsumed + (if step.singleSelect then {Upper(step.aid)} else {}))
      && (!r.Response? ==> r == NoResponse && e2 == e)
  {
  }

  /** A Request/Response step matches exactly when its selection requirement
      holds and the command's hex equals its request ignoring case: the step index
      advances and the result is the decoded response. Otherwise the fallback
      answers and nothing changes. */
  lemma RequestResponseStep(e: Engine, apdu: seq<byte>, sel: DefaultResponse, unsel: DefaultResponse)
    requires Active(e, Some(apdu))
    requires !(IsSelectCommand(apdu) && ExtractAid(apdu) in e.singleConsumed)
    requires e.stepIndex < |e.steps| && e.steps[e.stepIndex].kind == RequestResponse
    ensures var step := e.steps[e.stepIndex];
      var matched := step.needsSelection == e.isSelected && EqualsIgnoreCase(ToHex(apdu), step.request);
      var (e2, r) := Process(e, Some(apdu), sel, unsel);
      (matched ==>
         e2 == e.(stepIndex := e.stepIndex + 1)
         && r == (if HexDecode(step.response).Some? then Response(HexDecode(step.response).value) else HexError))
      && (!matched ==> e2 == e && r == Fallback(e, sel, unsel))
  {
  }

  /** Past the last step, every command that is not an ignored SELECT gets the
      configured response for the current selection state. */
  lemma PastLastStep(e: Engine, apdu: seq<byte>, sel: DefaultResponse, unsel: DefaultResponse)
    requires Active(e, Some(apdu))
    requires !(IsSelectCommand(apdu) && ExtractAid(apdu) in e.singleConsumed)
    requires e.stepIndex >= |e.steps|
    ensures Process(e, Some(apdu), sel, unsel) ==
      (e, Response(if e.isSelected then Data(sel) else Data(unsel)))
  {
  }

  /** A command moves the step index forward by at most one, never loses a
      consumed AID and touches nothing but the step index, the selection flag and
      the consumed set; the step index moves exactly when a step matched. */
  lemma ProcessMonotone(e: Engine, cmd: Option<seq<byte>>, sel: DefaultResponse, unsel: DefaultResponse)
    ensures var (e2, r) := Process(e, cmd, sel, unsel);
      (e2.stepIndex == e.stepIndex || e2.stepIndex == e.stepIndex + 1)
      && e.singleConsumed <= e2.singleConsumed
      && e2.current == e.current && e2.running == e.running
      && e2.silenced == e.silenced && e2.steps == e.steps
      && (e2.stepIndex == e.stepIndex ==> e2 == e)
      && (e.isSelected ==> e2.isSelected)
  {
  }

  /** `resetState` */
  function Reset(e: Engine): (r: Engine)
    ensures r.stepIndex == 0 && !r.isSelected && r.singleConsumed == {}
    ensures r.current == e.current && r.running == e.running
    ensures r.silenced == e.silenced && r.steps == e.steps
  {
    e.(stepIndex := 0, isSelected := false, singleConsumed := {})
  }

  // ------------------------------------------------------------------
  // Log messages

  function StartedMessage(name: string): string { "STATE-SCEN: Scenario '" + name + "' started." }
  function StoppedMessage(name: string): string { "STATE-SCEN: Scenario '" + name + "' stopped." }

  /** The message `toggleSilence` logs. */
  function SilenceMessage(current: Option<string>, silenced: bool): string {
    var name := if current.Some? then "Scenario '" + current.value + "'" else "Scenario";
    "STATE-SCEN: " + name + (if silenced then " silenced." else " unsilenced.")
  }

  // ------------------------------------------------------------------
  // The engine's scenario store: `name|step,step,...`, each step seven
  // ';'-separated fields.

  function StepTypeName(t: StepType): string {
    match t
    case Select => "Select"
    case RequestResponse => "RequestResponse"
  }

  /** `StepType.valueOf`: None where the JVM throws. */
  function StepTypeValueOf(s: string): (r: Option<StepType>)
    ensures r.Some? ==> StepTypeName(r.value) == s
    ensures forall t :: s == StepTypeName(t) ==> r == Some(t)
  {
    if s == "Select" then Some(Select)
    else if s == "RequestResponse" then Some(RequestResponse)
    else None
  }

  function BoolText(b: bool): string { if b then "true" else "false" }

  /** Kotlin's String.toBoolean(): "true" in any case. */
  predicate ToBoolean(s: string) { EqualsIgnoreCase(s, "true") }

  lemma ToBooleanBoolText(b: bool)
    ensures ToBoolean(BoolText(b)) == b
  {
    if !b {
      assert Upper("false")[0] == 'F';
    }
  }

  function StepFields(s: EngineStep): seq<string> {
    [s.name, StepTypeName(s.kind), s.aid, BoolText(s.singleSelect), s.request, s.response, BoolText(s.needsSelection)]
  }

  function StepText(s: EngineStep): string {
    Join(StepFields(s), ";")
  }

  function StepTexts(steps: seq<EngineStep>): (r: seq<string>)
    ensures |r| == |steps|
    ensures forall i :: 0 <= i < |steps| ==> r[i] == StepText(steps[i])
  {
    seq(|steps|, i requires 0 <= i < |steps| => StepText(steps[i]))
  }

  /** `saveAllScenarios`, one line. */
  function SaveLine(sc: EngineScenario): string {
    sc.name + "|" + Join(StepTexts(sc.steps), ",")
  }

  /** One step of a stored line: fewer than seven ';'-separated fields are
      skipped (inner None); an unknown step type throws (outer None). */
  function ParseStep(piece: string): Option<Option<EngineStep>> {
    var sp := Split(piece, ';');
    if |sp| < 7 then Some(None)
    else match StepTypeValueOf(sp[1])
      case None => None
      case Some(t) => Some(Some(EngineStep(sp[0], t, sp[2], ToBoolean(sp[3]), sp[4], sp[5], ToBoolean(sp[6]))))
  }

  /** The `mapNotNull` over the ','-separated steps. */
  function ParseSteps(pieces: seq<string>): Option<seq<EngineStep>> {
    if |pieces| == 0 then Some([])
    else match ParseStep(pieces[0])
      case None => None
      case Some(first) =>
        match ParseSteps(pieces[1..])
        case None => None
        case Some(rest) => Some((if first.Some? then [first.value] else []) + rest)
  }

  /** The steps after the first '|': none when that text is empty. */
  function StepsOf(stepString: string): Option<seq<EngineStep>> {
    if stepString == "" then Some([]) else ParseSteps(Split(stepString, ','))
  }

  /** `loadAllScenarios`, one line: the name before the first '|', the steps
      after it. */
  function ParseLine(line: string): Option<EngineScenario> {
    var parts := SplitFirst(line, '|');
    var steps := if parts.1.Some? then StepsOf(parts.1.value) else Some([]);
    if steps.None? then None else Some(EngineScenario(parts.0, steps.value))
  }

  /** `loadAllScenarios`: None when some line throws; otherwise the i-th
      scenario is the one the i-th line reads as. */
  function LoadAll(lines: seq<string>): (r: Option<seq<EngineScenario>>)
    ensures r.Some? ==> |r.value| == |lines|
    ensures r.Some? <==> forall i :: 0 <= i < |lines| ==> ParseLine(lines[i]).Some?
    ensures r.Some? ==> forall i :: 0 <= i < |lines| ==> r.value[i] == ParseLine(lines[i]).value
  {
    if |lines| == 0 then Some([])
    else match ParseLine(lines[0])
      case None => None
      case Some(sc) =>
        match LoadAll(lines[1..])
        case None => None
        case Some(rest) => Some([sc] + rest)
  }

  /** `saveAllScenarios`: the lines as a set (first occurrence kept). */
  function SaveAll(scs: seq<EngineScenario>): (r: seq<string>)
    ensures NoDup(r)
    ensures forall sc :: sc in scs ==> SaveLine(sc) in r
    ensures forall l :: l in r ==> exists sc :: sc in scs && SaveLine(sc) == l
  {
    var lines := seq(|scs|, i requires 0 <= i < |scs| => SaveLine(scs[i]));
    forall sc | sc in scs
      ensures SaveLine(sc) in lines
    {
      var i :| 0 <= i < |scs| && scs[i] == sc;
      assert lines[i] == SaveLine(sc);
    }
    Distinct(lines)
  }

  /** The line `loadScenario(name)` picks: the first that starts with
      "name|" or is exactly the name. */
  function FindLine(lines: seq<string>, name: string): (r: Option<string>)
    ensures r.Some? ==> r.value in lines && (StartsWith(r.value, name + "|") || r.value == name)
    ensures r.None? ==> forall l :: l in lines ==> !(StartsWith(l, name + "|") || l == name)
  {
    if |lines| == 0 then None
    else if StartsWith(lines[0], name + "|") || lines[0] == name then Some(lines[0])
    else
      assert forall l :: l in lines ==> l == lines[0] || l in lines[1..];
      FindLine(lines[1..], name)
  }

  /** The steps `setCurrent(name)` loads: none for an unknown name or a line
      without '|'; None where loading throws. */
  function LoadScenarioSteps(lines: seq<string>, name: string): Option<seq<EngineStep>> {
    match FindLine(lines, name)
    case None => Some([])
    case Some(line) =>
      var parts := SplitFirst(line, '|');
      if parts.1.None? then Some([]) else StepsOf(parts.1.value)
  }

  function WithoutName(scs: seq<EngineScenario>, name: string): (r: seq<EngineScenario>)
    ensures forall sc :: sc in r <==> sc in scs && sc.name != name
  {
    Filter(scs, (sc: EngineScenario) => sc.name != name)
  }

  // ------------------------------------------------------------------
  // Round trips of the store

  predicate FieldOk(f: string) { ';' !in f && ',' !in f }

  predicate StepOk(s: EngineStep) {
    FieldOk(s.name) && FieldOk(s.aid) && FieldOk(s.request) && FieldOk(s.response)
  }

  predicate ScenarioOk(sc: EngineScenario) {
    '|' !in sc.name && forall s :: s in sc.steps ==> StepOk(s)
  }

  lemma {:induction false} StepTextRoundTrip(s: EngineStep)
    requires StepOk(s)
    ensures ',' !in StepText(s)
    ensures ParseStep(StepText(s)) == Some(Some(s))
  {
    var f := StepFields(s);
    forall i | 0 <= i < |f| ensures ';' !in f[i] && ',' !in f[i] {
    }
    SplitJoin(f, ';');
    JoinNoChar(f, ";", ',');
    ToBooleanBoolText(s.singleSelect);
    ToBooleanBoolText(s.needsSelection);
  }

  lemma {:induction false} StepsRoundTrip(steps: seq<EngineStep>)
    requires forall s :: s in steps ==> StepOk(s)
    ensures ParseSteps(StepTexts(steps)) == Some(steps)
  {
    if |steps| > 0 {
      StepTextRoundTrip(steps[0]);
      assert StepTexts(steps)[1..] == StepTexts(steps[1..]);
      StepsRoundTrip(steps[1..]);
      assert [steps[0]] + steps[1..] == steps;
    }
  }

  /** A stored step text is never empty (it holds six ';'). */
  lemma StepTextNotEmpty(s: EngineStep)
    ensures |StepText(s)| > 0
  {
    assert StepText(s) == s.name + ";" + Join(StepFields(s)[1..], ";");
  }

  /** Reading back a saved line gives the scenario again, provided the name
      holds no '|' and no step field holds ';' or ','. */
  lemma StepStringRoundTrip(steps: seq<EngineStep>)
    requires forall s :: s in steps ==> StepOk(s)
    ensures StepsOf(Join(StepTexts(steps), ",")) == Some(steps)
  {
    var texts := StepTexts(steps);
    forall i | 0 <= i < |texts| ensures ',' !in texts[i] {
      StepTextRoundTrip(steps[i]);
    }
    if |steps| == 0 {
    } else {
      StepTextNotEmpty(steps[0]);
      JoinKeepsFirst(texts, ",");
      SplitJoin(texts, ',');
      StepsRoundTrip(steps);
    }
  }

  lemma LineRoundTrip(sc: EngineScenario)
    requires ScenarioOk(sc)
    ensures ParseLine(SaveLine(sc)) == Some(sc)
  {
    var body := Join(StepTexts(sc.steps), ",");
    assert SaveLine(sc) == sc.name + ['|'] + body;
    SplitFirstAt(sc.name, '|', body);
    StepStringRoundTrip(sc.steps);
  }

  /** The saved line of a scenario with a different '|'-free name is never
      the one `loadScenario(name)` picks. */
  lemma OtherLineNoMatch(o: EngineScenario, name: string)
    requires '|' !in o.name && '|' !in name && o.name != name
    ensures !(StartsWith(SaveLine(o), name + "|") || SaveLine(o) == name)
  {
    var line := SaveLine(o);
    var body := Join(StepTexts(o.steps), ",");
    assert line == o.name + ['|'] + body;
    SplitFirstAt(o.name, '|', body);
    if StartsWith(line, name + "|") {
      var rest := line[|name| + 1..];
      assert line == name + ['|'] + rest;
      SplitFirstAt(name, '|', rest);
      assert false;
    }
  }

  /** After `addScenario(sc)`, `setCurrent(sc.name)` loads exactly the steps of
      sc, in whatever order the stored set is read back, provided no stored
      name holds '|' and sc is storable. */
  lemma AddThenLoad(all: seq<EngineScenario>, sc: EngineScenario, lines: seq<string>)
    requires ScenarioOk(sc)
    requires forall o :: o in all ==> '|' !in o.name
    requires multiset(lines) == multiset(SaveAll(WithoutName(all, sc.name) + [sc]))
    ensures LoadScenarioSteps(lines, sc.name) == Some(sc.steps)
  {
    var scs := WithoutName(all, sc.name) + [sc];
    var saved := SaveAll(scs);
    var mine := SaveLine(sc);
    assert mine in multiset(lines);
    var body := Join(StepTexts(sc.steps), ",");
    assert mine == sc.name + ['|'] + body;
    assert StartsWith(mine, sc.name + "|");
    forall l | l in lines && (StartsWith(l, sc.name + "|") || l == sc.name)
      ensures l == mine
    {
      assert l in multiset(saved);
      assert l in saved;
      var o :| o in scs && SaveLine(o) == l;
      if o != sc {
        OtherLineNoMatch(o, sc.name);
      }
    }
    FindLineUnique(lines, sc.name, mine);
    SplitFirstAt(sc.name, '|', body);
    StepStringRoundTrip(sc.steps);
  }

  lemma {:induction false} FindLineUnique(lines: seq<string>, name: string, line: string)
    requires line in lines
    requires forall l :: l in lines && (StartsWith(l, name + "|") || l == name) ==> l == line
    requires StartsWith(line, name + "|") || line == name
    ensures FindLine(lines, name) == Some(line)
  {
    if lines[0] != line {
      assert forall l :: l in lines[1..] ==> l in lines;
      assert line in lines[1..];
      FindLineUnique(lines[1..], name, line);
    }
  }

  // ------------------------------------------------------------------
  // The manager

  class ScenarioManager {
    var current: Option<string>
    var running: bool
    var silenced: bool
    var steps: seq<EngineStep>
    var stepIndex: nat
    var isSelected: bool
    var singleConsumed: set<string>
    /** The stored scenario lines (a string set, in its iteration order). */
    var lines: seq<string>
    /** The stored current scenario name. */
    var prefCurrent: Option<string>
    const log: CommLog.CommunicationLog
    const settings: SettingsManager

    function State(): Engine
      reads this
    {
      Engine(current, running, silenced, steps, stepIndex, isSelected, singleConsumed)
    }

    constructor(log: CommLog.CommunicationLog, settings: SettingsManager, lines: seq<string>, prefCurrent: Option<string>)
      ensures State() == Engine(None, false, false, [], 0, false, {})
      ensures this.lines == lines && this.prefCurrent == prefCurrent
      ensures this.log == log && this.settings == settings
    {
      current := None;
      running := false;
      silenced := false;
      steps := [];
      stepIndex := 0;
      isSelected := false;
      singleConsumed := {};
      this.lines := lines;
      this.prefCurrent := prefCurrent;
      this.log := log;
      this.settings := settings;
    }

    /** `load`: the stored current scenario and its steps; `ok` is false where
        loading throws. */
    method Load() returns (ok: bool)
      modifies this
      ensures current == prefCurrent
      ensures var loaded := if prefCurrent.Some? then LoadScenarioSteps(lines, prefCurrent.value) else Some([]);
        ok == loaded.Some? && steps == (if ok then loaded.value else old(steps))
      ensures running == old(running) && silenced == old(silenced) && stepIndex == old(stepIndex)
      ensures isSelected == old(isSelected) && singleConsumed == old(singleConsumed)
      ensures lines == old(lines) && prefCurrent == old(prefCurrent)
    {
      current := prefCurrent;
      var loaded := if prefCurrent.Some? then LoadScenarioSteps(lines, prefCurrent.value) else Some([]);
      if loaded.None? {
        return false;
      }
      steps := loaded.value;
      ok := true;
    }

    /** `setCurrent(name)`: stores the name, loads its steps and resets the
        step state; where loading throws, the steps and step state stay. */
    method SetCurrent(name: Option<string>) returns (ok: bool)
      modifies this
      ensures current == name && prefCurrent == name
      ensures var loaded := if name.Some? then LoadScenarioSteps(lines, name.value) else Some([]);
        ok == loaded.Some?
        && (ok ==> steps == loaded.value && stepIndex == 0 && !isSelected && singleConsumed == {})
        && (!ok ==>
              steps == old(steps) && stepIndex == old(stepIndex)
              && isSelected == old(isSelected) && singleConsumed == old(singleConsumed))
      ensures running == old(running) && silenced == old(silenced) && lines == old(lines)
    {
      current := name;
      prefCurrent := name;
      var loaded := if name.Some? then LoadScenarioSteps(lines, name.value) else Some([]);
      if loaded.None? {
        return false;
      }
      steps := loaded.value;
      ResetState();
      ok := true;
    }

    method ResetState()
      modifies this
      ensures State() == Reset(old(State()))
      ensures lines == old(lines) && prefCurrent == old(prefCurrent)
    {
      stepIndex := 0;
      isSelected := false;
      singleConsumed := {};
    }

    /** `setRunning(on)` at time `now`: starting with a current scenario logs
        that it started; stopping logs that it stopped (when there is one) and
        resets the step state. */
    method SetRunning(on: bool, now: int)
      requires log.Valid()
      modifies this, log
      ensures log.Valid()
      ensures running == on
      ensures current == old(current) && silenced == old(silenced) && steps == old(steps)
      ensures on ==> stepIndex == old(stepIndex) && isSelected == old(isSelected) && singleConsumed == old(singleConsumed)
      ensures !on ==> stepIndex == 0 && !isSelected && singleConsumed == {}
      ensures old(current).Some? && on ==>
        log.buffer == CommLog.Appended(old(log.buffer), CommLog.Entry(StartedMessage(old(current).value), true, Some(true), now))
      ensures old(current).Some? && !on ==>
        log.buffer == CommLog.Appended(old(log.buffer), CommLog.Entry(StoppedMessage(old(current).value), true, Some(false), now))
      ensures old(current).None? ==> log.buffer == old(log.buffer)
      ensures lines == old(lines) && prefCurrent == old(prefCurrent)
      ensures log.logPath == old(log.logPath) && log.maxStorageMb == old(log.maxStorageMb)
    {
      running := on;
      var name := current;
      if on && name.Some? {
        log.Add(StartedMessage(name.value), true, Some(true), now);
      } else if !on && name.Some? {
        log.Add(StoppedMessage(name.value), true, Some(false), now);
        ResetState();
      } else if !on {
        ResetState();
      }
    }

    /** `toggleSilence()` at time `now`: flips the flag and logs the change. */
    method ToggleSilence(now: int)
      requires log.Valid()
      modifies this, log
      ensures log.Valid()
      ensures silenced == !old(silenced)
      ensures log.buffer == CommLog.Appended(old(log.buffer),
        CommLog.Entry(SilenceMessage(current, silenced), true, Some(!silenced), now))
      ensures current == old(current) && running == old(running) && steps == old(steps)
      ensures stepIndex == old(stepIndex) && isSelected == old(isSelected) && singleConsumed == old(singleConsumed)
      ensures lines == old(lines) && prefCurrent == old(prefCurrent)
      ensures log.logPath == old(log.logPath) && log.maxStorageMb == old(log.maxStorageMb)
    {
      silenced := !silenced;
      log.Add(SilenceMessage(current, silenced), true, Some(!silenced), now);
    }

    /** `onDeactivated`: the card is no longer selected; nothing else changes. */
    method OnDeactivated()
      modifies this
      ensures State() == old(State()).(isSelected := false)
      ensures lines == old(lines) && prefCurrent == old(prefCurrent)
    {
      isSelected := false;
    }

    /** `processApdu(cmd)`, answering unexpected commands with the configured
        default responses. */
    method ProcessApdu(cmd: Option<seq<byte>>) returns (r: ApduResult)
      modifies this
      ensures (State(), r) == Process(old(State()), cmd, settings.selectedResponse, settings.unselectedResponse)
      ensures lines == old(lines) && prefCurrent == old(prefCurrent)
    {
      if cmd.None? || silenced || !running || current.None? {
        return NoResponse;
      }
      var apdu := cmd.value;
      if IsSelectCommand(apdu) {
        var aid := ExtractAid(apdu);
        if aid in singleConsumed {
          return NoResponse;
        }
      }
      if stepIndex < |steps| {
        r := ApplyStep(apdu);
        return;
      }
      r := Response(if isSelected then Data(settings.selectedResponse) else Data(settings.unselectedResponse));
    }

    /** The `when (step.type)` part of `processApdu`. */
    method ApplyStep(apdu: seq<byte>) returns (r: ApduResult)
      requires stepIndex < |steps|
      modifies this
      ensures (State(), r) == StepOutcome(old(State()), apdu, settings.selectedResponse, settings.unselectedResponse)
      ensures lines == old(lines) && prefCurrent == old(prefCurrent)
    {
      if steps[stepIndex].kind.Select? {
        r := ApplySelectStep(apdu);
      } else {
        r := ApplyRequestStep(apdu);
      }
    }

    /** A Select step: answer 90 00 to its own SELECT and advance. */
    method ApplySelectStep(apdu: seq<byte>) returns (r: ApduResult)
      requires stepIndex < |steps| && steps[stepIndex].kind.Select?
      modifies this
      ensures (State(), r) == StepOutcome(old(State()), apdu, settings.selectedResponse, settings.unselectedResponse)
      ensures lines == old(lines) && prefCurrent == old(prefCurrent)
    {
      var step := steps[stepIndex];
      if IsSelectCommand(apdu) && EqualsIgnoreCase(ExtractAid(apdu), step.aid) {
        isSelected := true;
        if step.singleSelect {
          singleConsumed := singleConsumed + {Upper(step.aid)};
        }
        stepIndex := stepIndex + 1;
        return Response([0x90, 0x00]);
      }
      return NoResponse;
    }

    /** A Request/Response step: answer its own request and advance, or fall
        through to the configured response. */
    method ApplyRequestStep(apdu: seq<byte>) returns (r: ApduResult)
      requires stepIndex < |steps| && steps[stepIndex].kind.RequestResponse?
      modifies this
      ensures (State(), r) == StepOutcome(old(State()), apdu, settings.selectedResponse, settings.unselectedResponse)
      ensures lines == old(lines) && prefCurrent == old(prefCurrent)
    {
      var step := steps[stepIndex];
      if step.needsSelection == isSelected && EqualsIgnoreCase(ToHex(apdu), step.request) {
        stepIndex := stepIndex + 1;
        var bytes := HexToBytes(step.response);
        return if bytes.Some? then Response(bytes.value) else HexError;
      }
      r := Response(if isSelected then Data(settings.selectedResponse) else Data(settings.unselectedResponse));
    }

    /** `addScenario(sc)`: every stored scenario of that name is replaced by sc
        at the end; `ok` is false where reading the store throws. The string
        set written is read back later in its own iteration order, `order`. */
    method AddScenario(sc: EngineScenario, order: seq<string>) returns (ok: bool)
      requires LoadAll(lines).Some? ==>
        multiset(order) == multiset(SaveAll(WithoutName(LoadAll(lines).value, sc.name) + [sc]))
      modifies this
      ensures ok == LoadAll(old(lines)).Some?
      ensures ok ==> multiset(lines) == multiset(SaveAll(WithoutName(LoadAll(old(lines)).value, sc.name) + [sc]))
      ensures ok ==> lines == order
      ensures !ok ==> lines == old(lines)
      ensures State() == old(State()) && prefCurrent == old(prefCurrent)
    {
      var all := LoadAll(lines);
      if all.None? {
        return false;
      }
      lines := order;
      ok := true;
    }

    /** `removeScenario(name)`: every stored scenario of that name is dropped,
        and the current scenario is cleared when it was that one. The string
        set written is read back later in its own iteration order, `order`. */
    method RemoveScenario(name: string, order: seq<string>) returns (ok: bool)
      requires LoadAll(lines).Some? ==>
        multiset(order) == multiset(SaveAll(WithoutName(LoadAll(lines).value, name)))
      modifies this
      ensures ok <==> LoadAll(old(lines)).Some?
      ensures LoadAll(old(lines)).None? ==> !ok && lines == old(lines) && State() == old(State())
      ensures ok && old(current) == Some(name) ==> prefCurrent.None?
      ensures !ok || old(current) != Some(name) ==> prefCurrent == old(prefCurrent)
      ensures LoadAll(old(lines)).Some? ==>
        multiset(lines) == multiset(SaveAll(WithoutName(LoadAll(old(lines)).value, name))) && lines == order
      ensures LoadAll(old(lines)).Some? && old(current) != Some(name) ==> ok && State() == old(State())
      ensures ok && old(current) == Some(name) ==>
        current.None? && steps == [] && stepIndex == 0 && !isSelected && singleConsumed == {}
      ensures running == old(running) && silenced == old(silenced)
    {
      var all := LoadAll(lines);
      if all.None? {
        return false;
      }
      lines := order;
      ok := true;
      if current == Some(name) {
        ok := SetCurrent(None);
      }
    }

    /** `clearScenarios`: the store is emptied and no scenario is current. */
    method ClearScenarios()
      modifies this
      ensures lines == [] && current.None? && prefCurrent.None? && steps == []
      ensures stepIndex == 0 && !isSelected && singleConsumed == {}
      ensures running == old(running) && silenced == old(silenced)
    {
      lines := [];
      var ok := SetCurrent(None);
    }
  }
}
