/** The scenarios the screens edit (name, AID, select-once flag and
    name/request/response steps): their one-line storage format, and their
    JSON import and export. */
module ScenarioData {
  import opened Common
  import opened Json
  import ScenarioEngine

  datatype Step = Step(name: string, request: string, response: string)

  datatype Scenario = Scenario(name: string, aid: string, selectOnce: bool, steps: seq<Step>)

  function StepNames(steps: seq<Step>): (r: seq<string>)
    ensures |r| == |steps|
    ensures forall i :: 0 <= i < |steps| ==> r[i] == steps[i].name
  {
    seq(|steps|, i requires 0 <= i < |steps| => steps[i].name)
  }

  function Names(scs: seq<Scenario>): (r: seq<string>)
    ensures |r| == |scs|
    ensures forall i :: 0 <= i < |scs| ==> r[i] == scs[i].name
  {
    seq(|scs|, i requires 0 <= i < |scs| => scs[i].name)
  }

  /** `removeAll { it.name == name }` */
  function WithoutName(scs: seq<Scenario>, name: string): (r: seq<Scenario>)
    ensures forall sc :: sc in r <==> sc in scs && sc.name != name
    ensures |r| <= |scs|
  {
    Filter(scs, (sc: Scenario) => sc.name != name)
  }

  // ------------------------------------------------------------------
  // The line format: `name;aid;selectOnce|n;req;resp,n;req;resp,...`

  function StepText(s: Step): string {
    Join([s.name, s.request, s.response], ";")
  }

  function StepTexts(steps: seq<Step>): (r: seq<string>)
    ensures |r| == |steps|
    ensures forall i :: 0 <= i < |steps| ==> r[i] == StepText(steps[i])
  {
    seq(|steps|, i requires 0 <= i < |steps| => StepText(steps[i]))
  }

  function Header(sc: Scenario): string {
    Join([sc.name, sc.aid, ScenarioEngine.BoolText(sc.selectOnce)], ";")
  }

  /** `saveScenarios`, one scenario. */
  function SaveLine(sc: Scenario): string {
    Header(sc) + "|" + Join(StepTexts(sc.steps), ",")
  }

  /** `saveScenarios`: the lines as a string set. */
  function SaveScenarios(scs: seq<Scenario>): (r: seq<string>)
    ensures NoDup(r)
    ensures forall l :: l in r <==> exists sc :: sc in scs && SaveLine(sc) == l
  {
    var lines := seq(|scs|, i requires 0 <= i < |scs| => SaveLine(scs[i]));
    forall sc | sc in scs
      ensures SaveLine(sc) in lines
    {
      var i :| 0 <= i < |scs| && scs[i] == sc;
      assert lines[i] == SaveLine(sc);
    }
    Distinct(lines)
  }

  /** `associateBy { it.name }.values`: one step per name, with the request and
      response of its last occurrence, at the position of its first. */
  function AssociateByName(steps: seq<Step>): (r: seq<Step>)
    ensures NoDup(StepNames(r))
    ensures forall n :: n in StepNames(r) <==> n in StepNames(steps)
  {
    if |steps| == 0 then []
    else
      var acc := AssociateByName(steps[..|steps| - 1]);
      var s := steps[|steps| - 1];
      NamesOfInit(steps);
      if s.name in StepNames(acc) then
        var i := IndexIn(StepNames(acc), s.name);
        var r := acc[i := s];
        assert StepNames(r) == StepNames(acc);
        r
      else
        var r := acc + [s];
        assert StepNames(r) == StepNames(acc) + [s.name];
        r
  }

  lemma NamesOfInit(steps: seq<Step>)
    requires |steps| > 0
    ensures forall n :: n in StepNames(steps) <==>
      n in StepNames(steps[..|steps| - 1]) || n == steps[|steps| - 1].name
  {
    assert StepNames(steps) == StepNames(steps[..|steps| - 1]) + [steps[|steps| - 1].name];
  }

  function IndexIn(names: seq<string>, n: string): (i: nat)
    requires n in names
    ensures i < |names| && names[i] == n
  {
    if names[0] == n then 0 else 1 + IndexIn(names[1..], n)
  }

  /** A step whose name does not occur again later in the list survives
      `associateBy` unchanged: the last occurrence of a name wins. */
  lemma {:induction false} AssociateLastWins(steps: seq<Step>, i: nat)
    requires i < |steps|
    requires forall j :: i < j < |steps| ==> steps[j].name != steps[i].name
    ensures steps[i] in AssociateByName(steps)
  {
    var n := |steps|;
    var init := steps[..n - 1];
    var acc := AssociateByName(init);
    var s := steps[n - 1];
    var r := AssociateByName(steps);
    if i == n - 1 {
      if s.name in StepNames(acc) {
        var k := IndexIn(StepNames(acc), s.name);
        assert r == acc[k := s];
        assert r[k] == s;
      } else {
        assert r == acc + [s];
        assert r[|acc|] == s;
      }
    } else {
      assert init[i] == steps[i];
      AssociateLastWins(init, i);
      var m :| 0 <= m < |acc| && acc[m] == steps[i];
      if s.name in StepNames(acc) {
        var k := IndexIn(StepNames(acc), s.name);
        assert r == acc[k := s];
        assert acc[k].name == s.name != steps[i].name;
        assert r[m] == steps[i];
      } else {
        assert r == acc + [s];
        assert r[m] == steps[i];
      }
    }
  }

  /** Every step `associateBy` keeps is one of its input steps. */
  lemma {:induction false} AssociateFromInput(steps: seq<Step>)
    ensures forall x :: x in AssociateByName(steps) ==> x in steps
  {
    if |steps| > 0 {
      var n := |steps|;
      var init := steps[..n - 1];
      AssociateFromInput(init);
      assert forall x :: x in init ==> x in steps;
    }
  }

  /** `associateBy` keeps each name at the position of its first occurrence. */
  lemma {:induction false} AssociateOrder(steps: seq<Step>)
    ensures StepNames(AssociateByName(steps)) == Distinct(StepNames(steps))
  {
    if |steps| > 0 {
      var n := |steps|;
      var init := steps[..n - 1];
      var acc := AssociateByName(init);
      var s := steps[n - 1];
      AssociateOrder(init);
      assert StepNames(steps)[..n - 1] == StepNames(init);
      if s.name in StepNames(acc) {
        var k := IndexIn(StepNames(acc), s.name);
        assert StepNames(acc[k := s]) == StepNames(acc);
      } else {
        assert StepNames(acc + [s]) == StepNames(acc) + [s.name];
      }
    }
  }

  /** Steps whose names are already distinct come through `associateBy`
      unchanged. */
  lemma {:induction false} AssociateDistinct(steps: seq<Step>)
    requires NoDup(StepNames(steps))
    ensures AssociateByName(steps) == steps
  {
    if |steps| > 0 {
      var init := steps[..|steps| - 1];
      var s := steps[|steps| - 1];
      LastNameNew(steps);
      AssociateDistinct(init);
      AssociateNewName(steps);
      InitLast(steps);
    }
  }

  lemma AssociateNewName(steps: seq<Step>)
    requires |steps| > 0
    requires steps[|steps| - 1].name !in StepNames(AssociateByName(steps[..|steps| - 1]))
    ensures AssociateByName(steps) == AssociateByName(steps[..|steps| - 1]) + [steps[|steps| - 1]]
  {
  }

  /** In a list of distinct names, the last name is not among the earlier ones. */
  lemma LastNameNew(steps: seq<Step>)
    requires |steps| > 0 && NoDup(StepNames(steps))
    ensures NoDup(StepNames(steps[..|steps| - 1]))
    ensures steps[|steps| - 1].name !in StepNames(steps[..|steps| - 1])
  {
    var init := steps[..|steps| - 1];
    assert StepNames(init) == StepNames(steps)[..|steps| - 1];
  }

  /** One ','-separated piece: the name and, when present, the request and the
      response; a blank name drops the step. */
  function ParseStepPiece(piece: string): (r: Option<Step>)
    ensures r.None? <==> IsBlank(Split(piece, ';')[0])
    ensures r.Some? ==> StartsWith(piece, r.value.name) && ';' !in r.value.name
  {
    var sp := Split(piece, ';');
    SplitOnHead(piece, {';'});
    var name := sp[0];
    if IsBlank(name) then None
    else Some(Step(name, if |sp| > 1 then sp[1] else "", if |sp| > 2 then sp[2] else ""))
  }

  /** The steps of the pieces, in order, with the blank-named ones dropped. */
  function ParseStepPieces(pieces: seq<string>): (r: seq<Step>)
    ensures |r| <= |pieces|
    ensures forall st :: st in r ==> !IsBlank(st.name)
    ensures forall i :: 0 <= i < |pieces| && ParseStepPiece(pieces[i]).Some? ==>
      ParseStepPiece(pieces[i]).value in r
  {
    if |pieces| == 0 then []
    else
      var first := ParseStepPiece(pieces[0]);
      (if first.Some? then [first.value] else []) + ParseStepPieces(pieces[1..])
  }

  /** The steps after the '|': none for an empty text, else the ','-separated
      pieces with blank names dropped and one step per name. */
  function LoadSteps(body: string): (r: seq<Step>)
    ensures NoDup(StepNames(r))
    ensures forall st :: st in r ==> !IsBlank(st.name)
  {
    if body == "" then []
    else
      var pieces := ParseStepPieces(Split(body, ','));
      AssociateFromInput(pieces);
      AssociateByName(pieces)
  }

  /** The scenario name stands at the start of its line, before any ';' or '|'. */
  lemma HeaderName(line: string)
    ensures var name := SplitFirst(SplitFirst(line, '|').0, ';').0;
      StartsWith(line, name) && ';' !in name && '|' !in name
  {
    var head := SplitFirst(line, '|').0;
    var name := SplitFirst(head, ';').0;
    assert StartsWith(head, name);
    assert StartsWith(line, head);
    assert line[..|name|] == head[..|name|];
    assert forall i :: 0 <= i < |name| ==> name[i] == head[i];
  }

  /** `loadScenarios`, one line: None when the name is blank. */
  function LoadLine(line: string): (r: Option<Scenario>)
    ensures r.None? <==> IsBlank(SplitFirst(SplitFirst(line, '|').0, ';').0)
    ensures r.Some? ==> !IsBlank(r.value.name) && NoDup(StepNames(r.value.steps))
    ensures r.Some? ==> StartsWith(line, r.value.name) && ';' !in r.value.name && '|' !in r.value.name
    ensures r.Some? ==> forall st :: st in r.value.steps ==> !IsBlank(st.name)
  {
    var parts := SplitFirst(line, '|');
    var h := SplitFirst(parts.0, ';');
    var name := h.0;
    if IsBlank(name) then None
    else
      var aid := if h.1.Some? then SplitFirst(h.1.value, ';').0 else "";
      var flag := if h.1.Some? && SplitFirst(h.1.value, ';').1.Some? then SplitFirst(h.1.value, ';').1.value else "false";
      var steps := if parts.1.Some? then LoadSteps(parts.1.value) else [];
      HeaderName(line);
      Some(Scenario(name, aid, ScenarioEngine.ToBoolean(flag), steps))
  }

  /** A line holding only a name loads with no AID, select-once off and no
      steps: the defaults of the missing header fields. */
  lemma LoadLineNameOnly(name: string)
    requires !IsBlank(name) && ';' !in name && '|' !in name
    ensures LoadLine(name) == Some(Scenario(name, "", false, []))
  {
    SplitNoSep(name, '|');
    assert !ScenarioEngine.ToBoolean("false") by {
      assert |Upper("false")| != |Upper("true")|;
    }
  }

  /** A header with a name and an AID but no third field loads with
      select-once off. */
  lemma LoadLineWithoutFlag(name: string, aid: string)
    requires !IsBlank(name) && ';' !in name && '|' !in name
    requires ';' !in aid && '|' !in aid
    ensures LoadLine(name + ";" + aid) == Some(Scenario(name, aid, false, []))
  {
    var line := name + ";" + aid;
    assert '|' !in line;
    SplitFirstAt(name, ';', aid);
    assert !ScenarioEngine.ToBoolean("false") by {
      assert |Upper("false")| != |Upper("true")|;
    }
  }

  /** The third header field turns select-once on exactly when it reads
      "true" in any letter case. */
  lemma LoadLineFlag(name: string, aid: string, flag: string)
    requires !IsBlank(name) && ';' !in name && '|' !in name
    requires ';' !in aid && '|' !in aid && '|' !in flag
    ensures LoadLine(name + ";" + aid + ";" + flag).Some?
    ensures LoadLine(name + ";" + aid + ";" + flag).value.selectOnce <==> EqualsIgnoreCase(flag, "true")
    ensures LoadLine(name + ";" + aid + ";" + flag).value.aid == aid
  {
    var line := name + ";" + aid + ";" + flag;
    assert '|' !in line;
    assert line == name + [';'] + (aid + ";" + flag);
    SplitFirstAt(name, ';', aid + ";" + flag);
    SplitFirstAt(aid, ';', flag);
  }

  /** `loadScenarios` over the stored lines in their iteration order. */
  function LoadScenarios(lines: seq<string>): (r: seq<Scenario>)
    ensures forall sc :: sc in r <==> exists l :: l in lines && LoadLine(l) == Some(sc)
  {
    if |lines| == 0 then []
    else
      var rest := LoadScenarios(lines[1..]);
      assert forall l :: l in lines <==> l == lines[0] || l in lines[1..];
      (if LoadLine(lines[0]).Some? then [LoadLine(lines[0]).value] else []) + rest
  }

  // ------------------------------------------------------------------
  // Round trip of the line format

  /** The conditions under which a saved scenario reads back as itself. */
  predicate Storable(sc: Scenario) {
    !IsBlank(sc.name) && ';' !in sc.name && '|' !in sc.name
    && ';' !in sc.aid && '|' !in sc.aid
    && NoDup(StepNames(sc.steps))
    && forall s :: s in sc.steps ==> StepStorable(s)
  }

  predicate StepStorable(s: Step) {
    ScenarioEngine.FieldOk(s.name) && ScenarioEngine.FieldOk(s.request) && ScenarioEngine.FieldOk(s.response)
    && !IsBlank(s.name)
  }

  lemma StepTextShape(s: Step)
    ensures StepText(s) == s.name + [';'] + (s.request + [';'] + s.response)
  {
    var f := [s.name, s.request, s.response];
    assert f[1..] == [s.request, s.response];
    assert f[1..][1..] == [s.response];
    assert Join(f[1..], ";") == s.request + ";" + s.response;
  }

  lemma StepPieceRoundTrip(s: Step)
    requires StepStorable(s)
    ensures ',' !in StepText(s) && |StepText(s)| > 0
    ensures ParseStepPiece(StepText(s)) == Some(s)
  {
    var f := [s.name, s.request, s.response];
    SplitJoin(f, ';');
    StepTextShape(s);
  }

  lemma {:induction false} StepPiecesRoundTrip(steps: seq<Step>)
    requires forall s :: s in steps ==> StepStorable(s)
    ensures ParseStepPieces(StepTexts(steps)) == steps
  {
    if |steps| > 0 {
      StepPieceRoundTrip(steps[0]);
      assert StepTexts(steps)[1..] == StepTexts(steps[1..]);
      StepPiecesRoundTrip(steps[1..]);
      assert [steps[0]] + steps[1..] == steps;
    }
  }

  /** The steps part of a saved line reads back as the steps. */
  lemma StepsBodyRoundTrip(steps: seq<Step>)
    requires NoDup(StepNames(steps)) && forall s :: s in steps ==> StepStorable(s)
    ensures |steps| > 0 <==> Join(StepTexts(steps), ",") != ""
    ensures |steps| > 0 ==> AssociateByName(ParseStepPieces(Split(Join(StepTexts(steps), ","), ','))) == steps
  {
    if |steps| > 0 {
      var texts := StepTexts(steps);
      forall i | 0 <= i < |texts| ensures ',' !in texts[i] {
        StepPieceRoundTrip(steps[i]);
      }
      StepPieceRoundTrip(steps[0]);
      JoinKeepsFirst(texts, ",");
      SplitJoin(texts, ',');
      StepPiecesRoundTrip(steps);
      AssociateDistinct(steps);
    }
  }

  lemma HeaderShape(sc: Scenario)
    ensures Header(sc) == sc.name + [';'] + (sc.aid + [';'] + ScenarioEngine.BoolText(sc.selectOnce))
  {
    var f := [sc.name, sc.aid, ScenarioEngine.BoolText(sc.selectOnce)];
    assert f[1..] == [sc.aid, ScenarioEngine.BoolText(sc.selectOnce)];
    assert f[1..][1..] == [ScenarioEngine.BoolText(sc.selectOnce)];
    assert Join(f[1..], ";") == sc.aid + ";" + ScenarioEngine.BoolText(sc.selectOnce);
  }

  /** The header of a saved line reads back as name, AID and flag. */
  lemma HeaderRoundTrip(sc: Scenario, body: string)
    requires Storable(sc)
    ensures SplitFirst(Header(sc) + "|" + body, '|') == (Header(sc), Some(body))
    ensures SplitFirst(Header(sc), ';') == (sc.name, Some(sc.aid + [';'] + ScenarioEngine.BoolText(sc.selectOnce)))
    ensures SplitFirst(sc.aid + [';'] + ScenarioEngine.BoolText(sc.selectOnce), ';') == (sc.aid, Some(ScenarioEngine.BoolText(sc.selectOnce)))
  {
    var flag := ScenarioEngine.BoolText(sc.selectOnce);
    HeaderShape(sc);
    assert '|' !in flag;
    assert '|' !in Header(sc);
    SplitFirstAt(Header(sc), '|', body);
    SplitFirstAt(sc.name, ';', sc.aid + [';'] + flag);
    SplitFirstAt(sc.aid, ';', flag);
  }

  /** A storable scenario reads back from its saved line unchanged. */
  lemma LineRoundTrip(sc: Scenario)
    requires Storable(sc)
    ensures LoadLine(SaveLine(sc)) == Some(sc)
  {
    var body := Join(StepTexts(sc.steps), ",");
    HeaderRoundTrip(sc, body);
    ScenarioEngine.ToBooleanBoolText(sc.selectOnce);
    StepsBodyRoundTrip(sc.steps);
  }

  /** Saving and loading gives back the same scenarios as a set, in whatever
      order the stored string set yields its lines. */
  lemma LoadSaveSameSet(scs: seq<Scenario>, lines: seq<string>)
    requires forall sc :: sc in scs ==> Storable(sc)
    requires forall l :: l in lines <==> l in SaveScenarios(scs)
    ensures forall sc :: sc in LoadScenarios(lines) <==> sc in scs
  {
    forall sc | sc in scs
      ensures sc in LoadScenarios(lines)
    {
      SavedScenarioLoads(scs, lines, sc);
    }
    forall sc | sc in LoadScenarios(lines)
      ensures sc in scs
    {
      LoadedScenarioSaved(scs, lines, sc);
    }
  }

  lemma SavedScenarioLoads(scs: seq<Scenario>, lines: seq<string>, sc: Scenario)
    requires Storable(sc) && sc in scs
    requires forall l :: l in lines <==> l in SaveScenarios(scs)
    ensures sc in LoadScenarios(lines)
  {
    LineRoundTrip(sc);
    assert SaveLine(sc) in SaveScenarios(scs);
    assert SaveLine(sc) in lines;
  }

  lemma LoadedScenarioSaved(scs: seq<Scenario>, lines: seq<string>, sc: Scenario)
    requires forall sc :: sc in scs ==> Storable(sc)
    requires forall l :: l in lines <==> l in SaveScenarios(scs)
    requires sc in LoadScenarios(lines)
    ensures sc in scs
  {
    var l :| l in lines && LoadLine(l) == Some(sc);
    assert l in SaveScenarios(scs);
    var o :| o in scs && SaveLine(o) == l;
    LineRoundTrip(o);
  }

  /** The scenario engine's `loadScenario(name)` never picks a line saved in
      this format for a name without ';' when stored names hold no '|': the
      line starts "name;", not "name|". So setting such a scenario current
      loads no steps. */
  lemma EngineSeesNoSavedScenario(scs: seq<Scenario>, name: string)
    requires ';' !in name
    requires forall sc :: sc in scs ==> '|' !in sc.name
    ensures ScenarioEngine.FindLine(SaveScenarios(scs), name).None?
    ensures ScenarioEngine.LoadScenarioSteps(SaveScenarios(scs), name) == Some([])
  {
    forall l | l in SaveScenarios(scs)
      ensures !(StartsWith(l, name + "|") || l == name)
    {
      var sc :| sc in scs && SaveLine(sc) == l;
      SavedLineSemicolon(sc, name);
    }
  }

  lemma SavedLineSemicolon(sc: Scenario, name: string)
    requires ';' !in name && '|' !in sc.name
    ensures !(StartsWith(SaveLine(sc), name + "|") || SaveLine(sc) == name)
  {
    var l := SaveLine(sc);
    var k := |sc.name|;
    HeaderShape(sc);
    assert l[k] == ';';
    assert k < |name| ==> name[k] != ';';
    assert |name| < k ==> l[|name|] == sc.name[|name|] && sc.name[|name|] != '|';
  }

  // ------------------------------------------------------------------
  // JSON import and export

  /** One step object of an import: None when it is no object, its name is
      blank, or a step of that name was already taken (first wins). */
  function ImportedSteps(items: seq<Json>): (r: seq<Step>)
    ensures NoDup(StepNames(r))
    ensures forall s :: s in r ==> !IsBlank(s.name)
    decreases |items|
  {
    if |items| == 0 then []
    else
      var acc := ImportedSteps(items[..|items| - 1]);
      var it := items[|items| - 1];
      if it.JObj? && !IsBlank(OptString(it.fields, "name")) && OptString(it.fields, "name") !in StepNames(acc) then
        var s := Step(OptString(it.fields, "name"), OptString(it.fields, "request"), OptString(it.fields, "response"));
        assert StepNames(acc + [s]) == StepNames(acc) + [s.name];
        acc + [s]
      else acc
  }

  /** The scenario an import object describes (also the server's
      `parseScenario`): None for a blank name. */
  function ScenarioFromJson(obj: Fields): (r: Option<Scenario>)
    ensures r.Some? <==> !IsBlank(OptString(obj, "name"))
    ensures r.Some? ==>
      (r.value.name == OptString(obj, "name") && r.value.aid == OptString(obj, "aid")
       && r.value.selectOnce == OptBoolean(obj, "selectOnce", false)
       && NoDup(StepNames(r.value.steps)))
    ensures r.Some? && OptArray(obj, "steps").None? ==> r.value.steps == []
  {
    var name := OptString(obj, "name");
    if IsBlank(name) then None
    else
      var items := if OptArray(obj, "steps").Some? then OptArray(obj, "steps").value else [];
      Some(Scenario(name, OptString(obj, "aid"), OptBoolean(obj, "selectOnce", false), ImportedSteps(items)))
  }

  /** `importScenarios` on the parsed array: None where `getJSONObject` throws
      (an element that is no object). A later scenario of the same name
      replaces the earlier one and moves to the end. */
  function ImportItems(items: seq<Json>): (r: Option<seq<Scenario>>)
    ensures r.Some? ==> NoDup(Names(r.value)) && forall sc :: sc in r.value ==> !IsBlank(sc.name)
    decreases |items|
  {
    if |items| == 0 then Some([])
    else
      match ImportItems(items[..|items| - 1])
      case None => None
      case Some(acc) =>
        var it := items[|items| - 1];
        if !it.JObj? then None
        else
          match ScenarioFromJson(it.fields)
          case None => Some(acc)
          case Some(sc) => Some(ReplaceByName(acc, sc))
  }

  /** The scenarios with any of the same name dropped and `sc` appended. */
  function ReplaceByName(acc: seq<Scenario>, sc: Scenario): (r: seq<Scenario>)
    requires NoDup(Names(acc))
    ensures NoDup(Names(r))
    ensures forall x :: x in r <==> x == sc || (x in acc && x.name != sc.name)
    ensures |r| > 0 && r[|r| - 1] == sc && r[..|r| - 1] == WithoutName(acc, sc.name)
  {
    var kept := WithoutName(acc, sc.name);
    NoDupFilterNames(acc, sc.name);
    var r := kept + [sc];
    assert Names(r) == Names(kept) + [sc.name];
    r
  }

  lemma NoDupFilterNames(acc: seq<Scenario>, name: string)
    requires NoDup(Names(acc))
    ensures NoDup(Names(WithoutName(acc, name)))
    ensures name !in Names(WithoutName(acc, name))
  {
    var kept := WithoutName(acc, name);
    assert forall i :: 0 <= i < |kept| ==> kept[i] in acc;
    if !NoDup(Names(kept)) {
      var i, j :| 0 <= i < j < |kept| && Names(kept)[i] == Names(kept)[j];
      NamesFilterOrder(acc, name, i, j);
      assert false;
    }
  }

  lemma {:induction false} NamesFilterOrder(acc: seq<Scenario>, name: string, i: nat, j: nat)
    requires NoDup(Names(acc))
    requires i < j < |WithoutName(acc, name)|
    ensures WithoutName(acc, name)[i].name != WithoutName(acc, name)[j].name
  {
    var kept := WithoutName(acc, name);
    var init := acc[..|acc| - 1];
    assert Names(init) == Names(acc)[..|acc| - 1];
    var last := acc[|acc| - 1];
    if last.name != name && j == |kept| - 1 {
      assert kept == WithoutName(init, name) + [last];
      assert kept[i] in init;
      var k :| 0 <= k < |init| && init[k] == kept[i];
      assert Names(acc)[k] == kept[i].name;
      assert Names(acc)[|acc| - 1] == last.name;
    } else {
      assert kept == WithoutName(init, name) || kept == WithoutName(init, name) + [last];
      NamesFilterOrder(init, name, i, j);
    }
  }

  /** What `importScenarios(doc)` returns: a document that is no array
      throws (None). */
  function Imported(doc: Json): Option<seq<Scenario>> {
    if doc.JArr? then ImportItems(doc.items) else None
  }

  /** `importScenarios`: the loop over the array, with the inner loop over each
      scenario's steps, proved to compute `Imported`. */
  method ImportScenarios(doc: Json) returns (r: Option<seq<Scenario>>)
    ensures r == Imported(doc)
  {
    if !doc.JArr? {
      return None;
    }
    var items := doc.items;
    var scenarios: seq<Scenario> := [];
    var i := 0;
    while i < |items|
      invariant 0 <= i <= |items|
      invariant ImportItems(items[..i]) == Some(scenarios)
    {
      assert items[..i + 1][..i] == items[..i];
      var it := items[i];
      if !it.JObj? {
        assert ImportItems(items[..i + 1]).None?;
        ImportFailureSticks(items, i + 1);
        return None;
      }
      var obj := it.fields;
      var name := OptString(obj, "name");
      if !IsBlank(name) {
        var stepsArray := if OptArray(obj, "steps").Some? then OptArray(obj, "steps").value else [];
        var steps := CollectSteps(stepsArray);
        var selectOnce := OptBoolean(obj, "selectOnce", false);
        scenarios := WithoutName(scenarios, name);
        scenarios := scenarios + [Scenario(name, OptString(obj, "aid"), selectOnce, steps)];
      }
      i := i + 1;
    }
    assert items[..i] == items;
    return Some(scenarios);
  }

  /** Once an element is no object, the import fails whatever follows. */
  lemma {:induction false} ImportFailureSticks(items: seq<Json>, k: nat)
    requires k <= |items| && ImportItems(items[..k]).None?
    ensures ImportItems(items).None?
    decreases |items| - k
  {
    if k < |items| {
      assert items[..k + 1][..k] == items[..k];
      ImportFailureSticks(items, k + 1);
    } else {
      assert items[..k] == items;
    }
  }

  /** The inner loop of `importScenarios`: the first step of each non-blank
      name, skipping elements that are no object. */
  method CollectSteps(items: seq<Json>) returns (steps: seq<Step>)
    ensures steps == ImportedSteps(items)
  {
    steps := [];
    var j := 0;
    while j < |items|
      invariant 0 <= j <= |items|
      invariant steps == ImportedSteps(items[..j])
    {
      assert items[..j + 1][..j] == items[..j];
      var it := items[j];
      if it.JObj? {
        var stepName := OptString(it.fields, "name");
        if !IsBlank(stepName) && stepName !in StepNames(steps) {
          steps := steps + [Step(stepName, OptString(it.fields, "request"), OptString(it.fields, "response"))];
        }
      }
      j := j + 1;
    }
    assert items[..j] == items;
  }

  /** The last scenario object of each name is the one kept. */
  lemma {:induction false} ImportKeepsLast(items: seq<Json>, i: nat)
    requires i < |items| && items[i].JObj? && ScenarioFromJson(items[i].fields).Some?
    requires ImportItems(items).Some?
    requires forall j :: i < j < |items| && items[j].JObj? && ScenarioFromJson(items[j].fields).Some? ==>
      ScenarioFromJson(items[j].fields).value.name != ScenarioFromJson(items[i].fields).value.name
    ensures ScenarioFromJson(items[i].fields).value in ImportItems(items).value
  {
    var init := items[..|items| - 1];
    if i < |items| - 1 {
      assert forall j :: i < j < |init| ==> init[j] == items[j];
      ImportKeepsLast(init, i);
    }
  }

  /** The scenario of the last array element, when it reads, ends the imported
      list, wherever an earlier scenario of its name stood. */
  lemma ImportLastAtEnd(items: seq<Json>)
    requires |items| > 0 && items[|items| - 1].JObj?
    requires ScenarioFromJson(items[|items| - 1].fields).Some?
    requires ImportItems(items).Some?
    ensures var r := ImportItems(items).value;
      |r| > 0 && r[|r| - 1] == ScenarioFromJson(items[|items| - 1].fields).value
  {
  }

  /** The first step object of each non-blank name is the one kept. */
  lemma {:induction false} ImportKeepsFirstStep(items: seq<Json>, i: nat)
    requires i < |items| && items[i].JObj? && !IsBlank(OptString(items[i].fields, "name"))
    requires forall j :: 0 <= j < i && items[j].JObj? ==>
      OptString(items[j].fields, "name") != OptString(items[i].fields, "name")
    ensures Step(OptString(items[i].fields, "name"), OptString(items[i].fields, "request"),
                 OptString(items[i].fields, "response")) in ImportedSteps(items)
  {
    var init := items[..|items| - 1];
    if i < |items| - 1 {
      ImportKeepsFirstStep(init, i);
    } else {
      var n := OptString(items[i].fields, "name");
      if n in StepNames(ImportedSteps(init)) {
        var k :| 0 <= k < |ImportedSteps(init)| && StepNames(ImportedSteps(init))[k] == n;
        StepsComeFromItems(init, ImportedSteps(init)[k]);
        assert false;
      }
    }
  }

  /** Every imported step is taken from some step object of that name. */
  lemma {:induction false} StepsComeFromItems(items: seq<Json>, s: Step)
    requires s in ImportedSteps(items)
    ensures exists j :: 0 <= j < |items| && items[j].JObj? && OptString(items[j].fields, "name") == s.name
  {
    var init := items[..|items| - 1];
    if s in ImportedSteps(init) {
      StepsComeFromItems(init, s);
      var j :| 0 <= j < |init| && init[j].JObj? && OptString(init[j].fields, "name") == s.name;
      assert items[j] == init[j];
    } else {
      assert items[|items| - 1].JObj? && OptString(items[|items| - 1].fields, "name") == s.name;
    }
  }

  /** The JSON object `exportScenarios` writes for one step. */
  function StepJson(s: Step): Json {
    JObj([("name", JStr(s.name)), ("request", JStr(s.request)), ("response", JStr(s.response))])
  }

  function StepsJson(steps: seq<Step>): (r: seq<Json>)
    ensures |r| == |steps|
  {
    if |steps| == 0 then [] else StepsJson(steps[..|steps| - 1]) + [StepJson(steps[|steps| - 1])]
  }

  function ScenariosJson(scs: seq<Scenario>): (r: seq<Json>)
    ensures |r| == |scs|
  {
    if |scs| == 0 then [] else ScenariosJson(scs[..|scs| - 1]) + [ScenarioJson(scs[|scs| - 1])]
  }

  function ScenarioJson(sc: Scenario): Json {
    JObj([("name", JStr(sc.name)), ("aid", JStr(sc.aid)), ("selectOnce", JBool(sc.selectOnce)),
          ("steps", JArr(StepsJson(sc.steps)))])
  }

  /** `exportScenarios`: nothing for an empty list, else an array of scenario
      objects in list order. */
  function ExportScenarios(scs: seq<Scenario>): (r: Option<Json>)
    ensures r.None? <==> |scs| == 0
    ensures r.Some? ==> r.value.JArr? && |r.value.items| == |scs|
  {
    if |scs| == 0 then None
    else Some(JArr(ScenariosJson(scs)))
  }

  /** Distinct, non-blank step names. */
  predicate Exportable(sc: Scenario) {
    !IsBlank(sc.name) && NoDup(StepNames(sc.steps)) && forall s :: s in sc.steps ==> !IsBlank(s.name)
  }

  /** Steps with distinct, non-blank names come back from their exported
      objects unchanged. */
  lemma {:induction false} StepsExportImport(steps: seq<Step>)
    requires NoDup(StepNames(steps)) && forall s :: s in steps ==> !IsBlank(s.name)
    ensures ImportedSteps(StepsJson(steps)) == steps
  {
    if |steps| > 0 {
      var init := steps[..|steps| - 1];
      var s := steps[|steps| - 1];
      var items := StepsJson(steps);
      assert items[..|steps| - 1] == StepsJson(init);
      LastNameNew(steps);
      StepsExportImport(init);
      StepJsonFields(s);
      InitLast(steps);
    }
  }

  lemma StepJsonFields(s: Step)
    ensures OptString(StepJson(s).fields, "name") == s.name
    ensures OptString(StepJson(s).fields, "request") == s.request
    ensures OptString(StepJson(s).fields, "response") == s.response
  {
    var f := StepJson(s).fields;
    OptAt(f, 0, "name", JStr(s.name));
    OptAt(f, 1, "request", JStr(s.request));
    OptAt(f, 2, "response", JStr(s.response));
  }

  lemma ScenarioJsonFields(sc: Scenario)
    ensures ScenarioFromJson(ScenarioJson(sc).fields)
      == if IsBlank(sc.name) then None
         else Some(Scenario(sc.name, sc.aid, sc.selectOnce, ImportedSteps(StepsJson(sc.steps))))
  {
    var f := ScenarioJson(sc).fields;
    OptAt(f, 0, "name", JStr(sc.name));
    OptAt(f, 1, "aid", JStr(sc.aid));
    OptAt(f, 2, "selectOnce", JBool(sc.selectOnce));
    OptAt(f, 3, "steps", JArr(StepsJson(sc.steps)));
    assert OptString(f, "name") == sc.name && OptString(f, "aid") == sc.aid;
    assert OptBoolean(f, "selectOnce", false) == sc.selectOnce;
    assert OptArray(f, "steps") == Some(StepsJson(sc.steps));
  }

  /** Importing what was exported gives the same list back, when scenario names
      are distinct and non-blank and each scenario's step names are too. */
  lemma ExportImportRoundTrip(scs: seq<Scenario>)
    requires |scs| > 0
    requires NoDup(Names(scs))
    requires forall sc :: sc in scs ==> Exportable(sc)
    ensures Imported(ExportScenarios(scs).value) == Some(scs)
  {
    ItemsRoundTrip(scs);
  }

  lemma {:induction false} ItemsRoundTrip(scs: seq<Scenario>)
    requires NoDup(Names(scs))
    requires forall sc :: sc in scs ==> Exportable(sc)
    ensures ImportItems(ScenariosJson(scs)) == Some(scs)
  {
    if |scs| > 0 {
      var init := scs[..|scs| - 1];
      var sc := scs[|scs| - 1];
      var items := ScenariosJson(scs);
      assert items[..|scs| - 1] == ScenariosJson(init);
      LastScenarioNew(scs);
      ItemsRoundTrip(init);
      assert Exportable(sc);
      StepsExportImport(sc.steps);
      ScenarioJsonFields(sc);
      FilterKeepsAll(init, sc.name);
      InitLast(scs);
    }
  }

  /** In a list of distinct scenario names, the last name is not among the
      earlier ones. */
  lemma LastScenarioNew(scs: seq<Scenario>)
    requires |scs| > 0 && NoDup(Names(scs))
    ensures NoDup(Names(scs[..|scs| - 1]))
    ensures forall o :: o in scs[..|scs| - 1] ==> o.name != scs[|scs| - 1].name
  {
    var init := scs[..|scs| - 1];
    assert Names(init) == Names(scs)[..|scs| - 1];
    forall o | o in init ensures o.name != scs[|scs| - 1].name {
      var k :| 0 <= k < |init| && init[k] == o;
      assert Names(scs)[k] == o.name;
    }
  }

  lemma {:induction false} FilterKeepsAll(scs: seq<Scenario>, name: string)
    requires forall o :: o in scs ==> o.name != name
    ensures WithoutName(scs, name) == scs
  {
    if |scs| > 0 {
      var init := scs[..|scs| - 1];
      FilterKeepsAll(init, name);
      assert init + [scs[|scs| - 1]] == scs;
    }
  }
}
