/** The scenario screen: the list of stored scenarios with its selection,
    name filter, upsert and multi-delete, and the two editors (scenario and
    step) with the input filters and the checks that enable their Save
    buttons. */
module ScenarioScreen {
  import opened Common
  import opened Json
  import ScenarioData
  import AidScreen

  type Scenario = ScenarioData.Scenario
  type Step = ScenarioData.Step

  // ------------------------------------------------------------------
  // Input filters and validators

  /** A character a title or a step name may hold: a letter, a digit, '_',
      '-', '.' or a space. */
  predicate IsNameChar(c: char) {
    IsAsciiLetterOrDigit(c) || c == '_' || c == '-' || c == '.' || c == ' '
  }

  /** The title and step-name fields keep an input made of name characters
      only; any other input leaves the field as it was. */
  function FilterName(current: string, input: string): (r: string)
    ensures (forall i :: 0 <= i < |input| ==> IsNameChar(input[i])) ==> r == input
    ensures (exists i :: 0 <= i < |input| && !IsNameChar(input[i])) ==> r == current
  {
    if forall i :: 0 <= i < |input| ==> IsNameChar(input[i]) then input else current
  }

  /** `^[0-9A-Fa-f]*$` */
  predicate IsHexText(s: string) {
    forall i :: 0 <= i < |s| ==> IsUpperHexChar(s[i]) || 'a' <= s[i] <= 'f'
  }

  /** The request and response fields: the input upper-cased, kept only when
      it is hex. */
  function FilterHex(current: string, input: string): (r: string)
    ensures r == current || (r == Upper(input) && AllUpperHex(r))
    ensures AllUpperHex(Upper(input)) ==> r == Upper(input)
  {
    var filtered := Upper(input);
    if IsHexText(filtered) then filtered else current
  }

  lemma UpperHexIsHexText(s: string)
    ensures AllUpperHex(s) ==> IsHexText(s)
    ensures IsHexText(Upper(s)) ==> AllUpperHex(Upper(s))
  {
  }

  /** The names of the steps other than the one being edited (all of them for
      a new step). */
  function OtherNames(steps: seq<Step>, editing: Option<nat>): (r: seq<string>)
    ensures forall n :: n in r <==> exists j :: 0 <= j < |steps| && Some(j) != editing && steps[j].name == n
  {
    if |steps| == 0 then []
    else
      var last := |steps| - 1;
      var init := OtherNames(steps[..last], editing);
      assert forall j :: 0 <= j < last ==> steps[..last][j] == steps[j];
      if Some(last) == editing then init else init + [steps[last].name]
  }

  /** The step editor's Save button: request and response are hex of even
      length, and the name is non-blank and either the step's own name or
      not the name of another step. */
  predicate CanSaveStep(name: string, request: string, response: string, ownName: string, otherNames: seq<string>) {
    IsHexText(request) && |request| % 2 == 0
    && IsHexText(response) && |response| % 2 == 0
    && !IsBlank(name) && (name == ownName || name !in otherNames)
  }

  /** The step editor's `onSave`: a new step is appended, an edited one
      replaced in place. */
  function SaveStep(steps: seq<Step>, editing: Option<nat>, updated: Step): (r: seq<Step>)
    requires editing.Some? ==> editing.value < |steps|
    ensures editing.None? ==> r == steps + [updated]
    ensures editing.Some? ==> (|r| == |steps| && r[editing.value] == updated
      && forall j :: 0 <= j < |steps| && j != editing.value ==> r[j] == steps[j])
  {
    if editing.None? then steps + [updated] else steps[editing.value := updated]
  }

  /** A step the editor lets through keeps the step names of the scenario
      distinct. */
  lemma SaveStepKeepsNamesUnique(steps: seq<Step>, editing: Option<nat>, updated: Step)
    requires editing.Some? ==> editing.value < |steps|
    requires NoDup(ScenarioData.StepNames(steps))
    requires CanSaveStep(updated.name, updated.request, updated.response,
      if editing.Some? then steps[editing.value].name else "", OtherNames(steps, editing))
    ensures NoDup(ScenarioData.StepNames(SaveStep(steps, editing, updated)))
  {
    var r := SaveStep(steps, editing, updated);
    var names := ScenarioData.StepNames(r);
    forall i, j | 0 <= i < j < |r| ensures names[i] != names[j] {
      if editing.None? {
        if j == |steps| {
          assert updated.name != "" by { assert !IsBlank(updated.name); }
          assert steps[i].name in OtherNames(steps, editing);
        } else {
          assert ScenarioData.StepNames(steps)[i] != ScenarioData.StepNames(steps)[j];
        }
      } else {
        var e := editing.value;
        if i == e || j == e {
          var k := if i == e then j else i;
          if updated.name == steps[e].name {
            assert ScenarioData.StepNames(steps)[k] != ScenarioData.StepNames(steps)[e];
          } else {
            assert steps[k].name in OtherNames(steps, editing);
          }
        } else {
          assert ScenarioData.StepNames(steps)[i] != ScenarioData.StepNames(steps)[j];
        }
      }
    }
  }

  /** What the scenario editor's Save button does. */
  datatype EditorOutcome = SaveDisabled | TitleAlert | SaveScenario(scenario: Scenario)

  /** Save is enabled only for a valid AID; a blank title raises the alert and
      saves nothing; otherwise the edited scenario goes to `onSave`. */
  function ScenarioEditorSave(title: string, aid: string, selectOnce: bool, steps: seq<Step>): (r: EditorOutcome)
    ensures r.SaveScenario? <==> AidScreen.IsValidAid(aid) && !IsBlank(title)
    ensures r.SaveDisabled? <==> !AidScreen.IsValidAid(aid)
    ensures r.SaveScenario? ==> r.scenario == ScenarioData.Scenario(title, aid, selectOnce, steps)
  {
    if !AidScreen.IsValidAid(aid) then SaveDisabled
    else if IsBlank(title) then TitleAlert
    else SaveScenario(ScenarioData.Scenario(title, aid, selectOnce, steps))
  }

  // ------------------------------------------------------------------
  // The list operations

  /** `indexOfFirst { it.name == name }` */
  function IndexOfName(scs: seq<Scenario>, name: string): (r: Option<nat>)
    ensures r.Some? ==> (r.value < |scs| && scs[r.value].name == name
      && forall j :: 0 <= j < r.value ==> scs[j].name != name)
    ensures r.None? ==> forall j :: 0 <= j < |scs| ==> scs[j].name != name
  {
    if |scs| == 0 then None
    else if scs[0].name == name then Some(0)
    else
      var rest := IndexOfName(scs[1..], name);
      if rest.Some? then Some(rest.value + 1) else None
  }

  /** The list's `onSave` for the scenario edited at `editing` (None for a new
      one): a scenario of the same name is overwritten in place, and the
      edited original removed when it sat elsewhere; with no such name a new
      scenario is appended and an edited one replaced. */
  function Upsert(scs: seq<Scenario>, editing: Option<nat>, updated: Scenario): seq<Scenario>
    requires editing.Some? ==> editing.value < |scs|
  {
    match IndexOfName(scs, updated.name)
    case Some(k) =>
      var replaced := scs[k := updated];
      if editing.Some? && k != editing.value then RemoveAt(replaced, editing.value) else replaced
    case None =>
      if editing.None? then scs + [updated] else scs[editing.value := updated]
  }

  function NameSet(scs: seq<Scenario>): set<string> {
    set sc | sc in scs :: sc.name
  }

  /** The upsert with distinct names: the names stay distinct, the saved
      scenario is in the list, the edited original's name is gone unless it
      is the saved one's, and every other scenario stays. */
  lemma UpsertResult(scs: seq<Scenario>, editing: Option<nat>, updated: Scenario)
    requires editing.Some? ==> editing.value < |scs|
    requires NoDup(ScenarioData.Names(scs))
    ensures var r := Upsert(scs, editing, updated);
      NoDup(ScenarioData.Names(r))
      && updated in r
      && NameSet(r) == (NameSet(scs) - (if editing.Some? then {scs[editing.value].name} else {})) + {updated.name}
      && forall sc :: sc in scs && sc.name != updated.name && (editing.None? || sc.name != scs[editing.value].name) ==> sc in r
  {
    var r := Upsert(scs, editing, updated);
    var names := ScenarioData.Names(scs);
    match IndexOfName(scs, updated.name)
    case Some(k) =>
      var replaced := scs[k := updated];
      if editing.Some? && k != editing.value {
        var e := editing.value;
        UpsertRemovesEdited(scs, k, e, updated);
      } else {
        UpsertReplaces(scs, k, updated);
        if editing.Some? {
          assert scs[editing.value].name == updated.name;
        }
      }
    case None =>
      if editing.None? {
        UpsertAppends(scs, updated);
      } else {
        UpsertReplaces(scs, editing.value, updated);
      }
  }

  lemma UpsertAppends(scs: seq<Scenario>, updated: Scenario)
    requires NoDup(ScenarioData.Names(scs))
    requires forall j :: 0 <= j < |scs| ==> scs[j].name != updated.name
    ensures NoDup(ScenarioData.Names(scs + [updated]))
    ensures NameSet(scs + [updated]) == NameSet(scs) + {updated.name}
  {
    var r := scs + [updated];
    assert forall i :: 0 <= i < |scs| ==> r[i] == scs[i];
    assert ScenarioData.Names(scs) == ScenarioData.Names(r)[..|scs|];
  }

  lemma UpsertReplaces(scs: seq<Scenario>, k: nat, updated: Scenario)
    requires k < |scs| && NoDup(ScenarioData.Names(scs))
    requires forall j :: 0 <= j < |scs| && j != k ==> scs[j].name != updated.name
    ensures NoDup(ScenarioData.Names(scs[k := updated]))
    ensures NameSet(scs[k := updated]) == (NameSet(scs) - {scs[k].name}) + {updated.name}
    ensures forall sc :: sc in scs && sc.name != scs[k].name ==> sc in scs[k := updated]
  {
    var r := scs[k := updated];
    var names := ScenarioData.Names(scs);
    assert forall i, j :: 0 <= i < j < |scs| ==> names[i] != names[j];
    forall sc | sc in scs && sc.name != scs[k].name ensures sc in r {
      var j :| 0 <= j < |scs| && scs[j] == sc;
      assert r[j] == sc;
    }
    forall n | n in NameSet(scs) - {scs[k].name} ensures n in NameSet(r) {
      var j :| 0 <= j < |scs| && scs[j].name == n;
      assert r[j] == scs[j];
    }
    forall n | n in NameSet(r) ensures n in (NameSet(scs) - {scs[k].name}) + {updated.name} {
      var j :| 0 <= j < |r| && r[j].name == n;
      if j != k {
        assert names[j] != names[k];
        assert scs[j] in scs;
      }
    }
    assert r[k] == updated;
  }

  /** Removing one row of a list with distinct names drops exactly its name. */
  lemma RemoveAtNames(s: seq<Scenario>, e: nat)
    requires e < |s| && NoDup(ScenarioData.Names(s))
    ensures var r := RemoveAt(s, e);
      NoDup(ScenarioData.Names(r))
      && NameSet(r) == NameSet(s) - {s[e].name}
      && forall x :: x in s && x != s[e] ==> x in r
  {
    var r := RemoveAt(s, e);
    var names := ScenarioData.Names(s);
    assert forall i, j :: 0 <= i < j < |s| ==> names[i] != names[j];
    forall x | x in s && x != s[e] ensures x in r {
      var j :| 0 <= j < |s| && s[j] == x;
      if j < e { assert r[j] == x; } else { assert r[j - 1] == x; }
    }
    forall n | n in NameSet(s) - {s[e].name} ensures n in NameSet(r) {
      var j :| 0 <= j < |s| && s[j].name == n;
      assert s[j] != s[e];
      assert s[j] in r;
    }
    forall n | n in NameSet(r) ensures n in NameSet(s) - {s[e].name} {
      var i :| 0 <= i < |r| && r[i].name == n;
      var j := if i < e then i else i + 1;
      assert r[i] == s[j] && names[j] != names[e];
      assert s[j] in s;
    }
    forall i, j | 0 <= i < j < |r| ensures r[i].name != r[j].name {
      var oi := if i < e then i else i + 1;
      var oj := if j < e then j else j + 1;
      assert r[i] == s[oi] && r[j] == s[oj];
      assert names[oi] != names[oj];
    }
  }

  lemma UpsertRemovesEdited(scs: seq<Scenario>, k: nat, e: nat, updated: Scenario)
    requires k < |scs| && e < |scs| && k != e && NoDup(ScenarioData.Names(scs))
    requires scs[k].name == updated.name
    ensures var r := RemoveAt(scs[k := updated], e);
      NoDup(ScenarioData.Names(r)) && updated in r
      && NameSet(r) == (NameSet(scs) - {scs[e].name}) + {updated.name}
      && forall sc :: sc in scs && sc.name != updated.name && sc.name != scs[e].name ==> sc in r
  {
    var names := ScenarioData.Names(scs);
    assert forall j :: 0 <= j < |scs| && j != k ==> names[j] != names[k];
    UpsertReplaces(scs, k, updated);
    var replaced := scs[k := updated];
    assert replaced[e] == scs[e];
    RemoveAtNames(replaced, e);
    assert updated.name != scs[e].name by { assert names[k] != names[e]; }
    assert updated in replaced && updated != replaced[e];
    assert updated.name in NameSet(scs) by { assert scs[k] in scs; }
  }

  /** The elements of `s` whose index is not in `del`, in order. */
  function Kept<T>(s: seq<T>, del: set<int>): (r: seq<T>)
    ensures |r| <= |s|
  {
    if |s| == 0 then []
    else Kept(s[..|s| - 1], del) + (if |s| - 1 in del then [] else [s[|s| - 1]])
  }

  /** An element stays iff some index of it is not deleted. */
  lemma {:induction false} KeptMembers<T>(s: seq<T>, del: set<int>, x: T)
    ensures x in Kept(s, del) <==> exists j :: 0 <= j < |s| && j !in del && s[j] == x
  {
    if |s| > 0 {
      var init := s[..|s| - 1];
      KeptMembers(init, del, x);
      assert forall j :: 0 <= j < |init| ==> init[j] == s[j];
    }
  }

  lemma {:induction false} KeptAll<T>(s: seq<T>, del: set<int>)
    requires forall d :: d in del ==> d >= |s|
    ensures Kept(s, del) == s
  {
    if |s| > 0 {
      KeptAll(s[..|s| - 1], del);
    }
  }

  /** Deleting only at or above n leaves the first n elements in place. */
  lemma {:induction false} KeptPrefix<T>(s: seq<T>, del: set<int>, n: nat)
    requires n <= |s| && forall d :: d in del ==> d >= n
    ensures |Kept(s, del)| >= n && Kept(s, del)[..n] == s[..n]
    decreases |s|
  {
    if |s| == n {
      KeptAll(s, del);
    } else {
      KeptPrefix(s[..|s| - 1], del, n);
    }
  }

  /** Removing index i from what is kept after deleting only above i is
      deleting i as well. */
  lemma {:induction false} KeptRemove<T>(s: seq<T>, del: set<int>, i: nat)
    requires i < |s| && forall d :: d in del ==> d > i
    ensures |Kept(s, del)| > i
    ensures Kept(s, del + {i}) == RemoveAt(Kept(s, del), i)
    decreases |s|
  {
    var n := |s| - 1;
    var init := s[..n];
    KeptPrefix(s, del, i + 1);
    if n == i {
      KeptAll(init, del);
      KeptAll(init, del + {i});
    } else {
      KeptRemove(init, del, i);
    }
  }

  /** Kotlin's `sortedDescending()`. */
  function InsertDesc(x: int, s: seq<int>): (r: seq<int>)
    ensures |r| == |s| + 1
    ensures forall y :: y in r <==> y == x || y in s
  {
    if |s| == 0 || x >= s[0] then [x] + s else [s[0]] + InsertDesc(x, s[1..])
  }

  predicate StrictlyDescending(s: seq<int>) {
    forall i, j :: 0 <= i < j < |s| ==> s[i] > s[j]
  }

  lemma {:induction false} InsertDescSorted(x: int, s: seq<int>)
    requires StrictlyDescending(s) && x !in s
    ensures StrictlyDescending(InsertDesc(x, s))
  {
    if |s| > 0 && x < s[0] {
      InsertDescSorted(x, s[1..]);
      var t := InsertDesc(x, s[1..]);
      assert forall y :: y in s[1..] ==> y < s[0] by {
        forall y | y in s[1..] ensures y < s[0] {
          var j :| 0 <= j < |s[1..]| && s[1..][j] == y;
          assert s[j + 1] == y;
        }
      }
      assert forall j :: 0 <= j < |t| ==> t[j] < s[0] by {
        forall j | 0 <= j < |t| ensures t[j] < s[0] {
          assert t[j] in t;
        }
      }
      var r := [s[0]] + t;
      assert forall j :: 1 <= j < |r| ==> r[j] == t[j - 1];
    }
  }

  function SortDesc(s: seq<int>): (r: seq<int>)
    ensures |r| == |s|
    ensures forall y :: y in r <==> y in s
  {
    if |s| == 0 then [] else InsertDesc(s[0], SortDesc(s[1..]))
  }

  lemma {:induction false} SortDescSorted(s: seq<int>)
    requires NoDup(s)
    ensures StrictlyDescending(SortDesc(s))
  {
    if |s| > 0 {
      assert NoDup(s[1..]);
      SortDescSorted(s[1..]);
      InsertDescSorted(s[0], SortDesc(s[1..]));
    }
  }

  /** The scenarios the export writes: those whose row is selected, in list
      order (not selection order). */
  function SelectedScenarios(scs: seq<Scenario>, selected: seq<nat>): (r: seq<Scenario>)
    ensures |r| <= |scs|
  {
    Kept(scs, set i | 0 <= i < |scs| && i !in selected)
  }

  /** A scenario is exported exactly when some selected row holds it. */
  lemma SelectedScenariosMembers(scs: seq<Scenario>, selected: seq<nat>, x: Scenario)
    ensures x in SelectedScenarios(scs, selected) <==>
      exists j :: 0 <= j < |scs| && j in selected && scs[j] == x
  {
    KeptMembers(scs, (set i | 0 <= i < |scs| && i !in selected), x);
  }

  /** With every row selected (Select All), the export writes the whole list. */
  lemma SelectAllExportsAll(scs: seq<Scenario>, selected: seq<nat>)
    requires forall i :: 0 <= i < |scs| ==> i in selected
    ensures SelectedScenarios(scs, selected) == scs
  {
    KeptAll(scs, set i | 0 <= i < |scs| && i !in selected);
  }

  /** The current scenario after the scenarios at `indices` are removed: gone
      when one of them carried its name. */
  function CurrentAfter(current: Option<string>, scs: seq<Scenario>, indices: seq<int>): Option<string> {
    if current.Some? && exists i :: i in indices && 0 <= i < |scs| && scs[i].name == current.value then None else current
  }

  /** One turn of the delete loop: the next index, smaller than all removed
      so far, still names the same row, and removing it removes that row. */
  lemma DeleteStep(original: seq<Scenario>, order: seq<int>, k: nat)
    requires StrictlyDescending(order) && k < |order|
    requires forall j :: 0 <= j < |order| ==> 0 <= order[j] < |original|
    ensures 0 <= order[k] < |Kept(original, SetOf(order[..k]))|
    ensures Kept(original, SetOf(order[..k]))[order[k]] == original[order[k]]
    ensures Kept(original, SetOf(order[..k + 1])) == RemoveAt(Kept(original, SetOf(order[..k])), order[k])
  {
    var idx := order[k];
    assert idx in order;
    var del := SetOf(order[..k]);
    forall d | d in del ensures d > idx {
      var j :| 0 <= j < k && order[j] == d;
    }
    KeptRemove(original, del, idx);
    KeptPrefix(original, del, idx + 1);
    var kept := Kept(original, del);
    assert kept[..idx + 1][idx] == original[..idx + 1][idx];
    assert order[..k + 1] == order[..k] + [idx];
    assert SetOf(order[..k + 1]) == del + {idx};
  }

  lemma CurrentStep(current0: Option<string>, original: seq<Scenario>, order: seq<int>, k: nat)
    requires k < |order| && forall j :: 0 <= j < |order| ==> 0 <= order[j] < |original|
    ensures var before := CurrentAfter(current0, original, order[..k]);
      CurrentAfter(current0, original, order[..k + 1]) ==
        if before == Some(original[order[k]].name) then None else before
  {
    assert order[..k + 1] == order[..k] + [order[k]];
    assert order[k] in order;
  }

  // ------------------------------------------------------------------
  // The visible list

  /** The rows shown under a filter: each scenario whose name contains the
      filter ignoring case, with its index in the full list. */
  function VisibleItems(scs: seq<Scenario>, filter: string): (r: seq<(nat, Scenario)>)
    ensures forall k :: 0 <= k < |r| ==> r[k].0 < |scs| && scs[r[k].0] == r[k].1 && ContainsIgnoreCase(r[k].1.name, filter)
    ensures forall i :: 0 <= i < |scs| && ContainsIgnoreCase(scs[i].name, filter) ==> (i, scs[i]) in r
    ensures forall k, l :: 0 <= k < l < |r| ==> r[k].0 < r[l].0
  {
    if |scs| == 0 then []
    else
      var last := |scs| - 1;
      var init := VisibleItems(scs[..last], filter);
      assert forall i :: 0 <= i < last ==> scs[..last][i] == scs[i];
      if ContainsIgnoreCase(scs[last].name, filter) then init + [(last, scs[last])] else init
  }

  /** The empty filter shows every scenario. */
  lemma EmptyFilterShowsAll(scs: seq<Scenario>, i: nat)
    requires i < |scs|
    ensures (i, scs[i]) in VisibleItems(scs, "")
  {
    assert OccursAt(Upper(scs[i].name), Upper(""), 0);
  }

  // ------------------------------------------------------------------
  // The screen

  class ScenarioList {
    var scenarios: seq<Scenario>
    /** The selected row indices, in the order they were selected. */
    var selected: seq<nat>
    /** The engine's current scenario name, as far as this screen changes it. */
    var current: Option<string>
    /** The lines last written to the scenario preferences. */
    var stored: seq<string>

    predicate Valid()
      reads this
    {
      NoDup(selected) && forall i :: i in selected ==> i < |scenarios|
    }

    /** `loadScenarios` */
    constructor (lines: seq<string>, current: Option<string>)
      ensures Valid()
      ensures scenarios == ScenarioData.LoadScenarios(lines) && selected == []
      ensures this.current == current && stored == lines
    {
      scenarios := ScenarioData.LoadScenarios(lines);
      selected := [];
      this.current := current;
      stored := lines;
    }

    /** A click on a row toggles its index in the selection. */
    method Toggle(index: nat)
      requires Valid() && index < |scenarios|
      modifies this
      ensures Valid()
      ensures index in old(selected) ==> selected == RemoveFirst(old(selected), index)
      ensures index !in old(selected) ==> selected == old(selected) + [index]
      ensures index in selected <==> index !in old(selected)
      ensures scenarios == old(scenarios) && current == old(current) && stored == old(stored)
    {
      if index in selected {
        RemoveFirstNoDup(selected, index);
        RemoveFirstKeepsNoDup(selected, index);
        selected := RemoveFirst(selected, index);
      } else {
        selected := selected + [index];
      }
    }

    /** Select All */
    method SelectAll()
      modifies this
      ensures Valid()
      ensures |selected| == |scenarios| && forall i :: 0 <= i < |selected| ==> selected[i] == i
      ensures scenarios == old(scenarios) && current == old(current) && stored == old(stored)
    {
      var n := |scenarios|;
      selected := seq(n, i requires 0 <= i < n => i);
    }

    /** Deselect All */
    method DeselectAll()
      modifies this
      ensures Valid() && selected == []
      ensures scenarios == old(scenarios) && current == old(current) && stored == old(stored)
    {
      selected := [];
    }

    /** The editor's `onSave`: upsert, clear the selection, save. */
    method Save(editing: Option<nat>, updated: Scenario)
      requires editing.Some? ==> editing.value < |scenarios|
      modifies this
      ensures Valid()
      ensures scenarios == Upsert(old(scenarios), editing, updated) && selected == []
      ensures stored == ScenarioData.SaveScenarios(scenarios) && current == old(current)
    {
      scenarios := Upsert(scenarios, editing, updated);
      selected := [];
      stored := ScenarioData.SaveScenarios(scenarios);
    }

    /** The delete dialog's OK: the indices removed from the largest down, so
        each still names a row of the list as it was; the current scenario
        cleared when removed; the selection emptied; the list saved. */
    method ConfirmDelete(indices: seq<nat>)
      requires NoDup(indices) && forall i :: i in indices ==> i < |scenarios|
      modifies this
      ensures Valid()
      ensures scenarios == Kept(old(scenarios), SetOf(indices))
      ensures current == CurrentAfter(old(current), old(scenarios), indices)
      ensures selected == [] && stored == ScenarioData.SaveScenarios(scenarios)
    {
      var order := SortDesc(indices);
      SortDescSorted(indices);
      forall j | 0 <= j < |order| ensures 0 <= order[j] < |scenarios| {
        assert order[j] in order;
      }
      DeleteRows(order);
      assert SetOf(order) == SetOf(indices);
      selected := [];
      stored := ScenarioData.SaveScenarios(scenarios);
    }

    /** The delete loop over indices in strictly descending order. */
    method DeleteRows(order: seq<int>)
      requires StrictlyDescending(order)
      requires forall j :: 0 <= j < |order| ==> 0 <= order[j] < |scenarios|
      modifies this
      ensures scenarios == Kept(old(scenarios), SetOf(order))
      ensures current == CurrentAfter(old(current), old(scenarios), order)
      ensures selected == old(selected) && stored == old(stored)
    {
      ghost var original := scenarios;
      ghost var current0 := current;
      KeptAll(original, {});
      assert SetOf(order[..0]) == {};
      var k := 0;
      while k < |order|
        invariant 0 <= k <= |order|
        invariant scenarios == Kept(original, SetOf(order[..k]))
        invariant current == CurrentAfter(current0, original, order[..k])
        invariant selected == old(selected) && stored == old(stored)
      {
        var idx := order[k];
        DeleteStep(original, order, k);
        CurrentStep(current0, original, order, k);
        var removed := scenarios[idx];
        scenarios := RemoveAt(scenarios, idx);
        if current == Some(removed.name) {
          current := None;
        }
        k := k + 1;
      }
      assert order[..k] == order;
    }

    /** The import: the imported list replaces the shown one, the selection is
        emptied and the list saved. */
    method Import(doc: Option<Json>) returns (count: Option<nat>)
      requires Valid()
      modifies this
      ensures Valid()
      ensures doc.None? ==> scenarios == [] && selected == [] && stored == ScenarioData.SaveScenarios([]) && count == Some(0)
      ensures doc.Some? && ScenarioData.Imported(doc.value).Some? ==>
        scenarios == ScenarioData.Imported(doc.value).value && selected == [] && stored == ScenarioData.SaveScenarios(scenarios)
        && count == Some(|scenarios|)
      ensures doc.Some? && ScenarioData.Imported(doc.value).None? ==>
        scenarios == old(scenarios) && selected == old(selected) && stored == old(stored) && count.None?
      ensures current == old(current)
    {
      var imported: Option<seq<ScenarioData.Scenario>> := Some([]);
      if doc.Some? {
        imported := ScenarioData.ImportScenarios(doc.value);
      }
      if imported.None? {
        return None;
      }
      scenarios := imported.value;
      selected := [];
      stored := ScenarioData.SaveScenarios(scenarios);
      count := Some(|scenarios|);
    }
  }
}
