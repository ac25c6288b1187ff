// The example server's scenario handler: a request's Clear, Add and Remove
// applied, in that order, to the server's map from scenario name to scenario;
// Current is only logged.

module ScenariosHandler {
  import opened Common
  import opened JsValues

  /** `sc.name`, which throws a TypeError when sc is undefined or null. */
  function NameOf(sc: JsValue): JsValue
    requires Destructurable(sc)
  {
    Property(sc, "name")
  }

  predicate AllNamed(items: seq<JsValue>) {
    forall i :: 0 <= i < |items| ==> Destructurable(items[i])
  }

  /** The index of the first item whose name cannot be read, or |items|. */
  function FirstNullish(items: seq<JsValue>): (k: nat)
    ensures k <= |items|
    ensures AllNamed(items[..k])
    ensures k < |items| ==> !Destructurable(items[k])
  {
    if |items| == 0 then 0
    else if !Destructurable(items[0]) then 0
    else
      var k := 1 + FirstNullish(items[1..]);
      assert items[..k] == [items[0]] + items[1..][..k - 1];
      k
  }

  /** The map after `scenarios.set(sc.name, sc)` for each item in turn. */
  function StoredAll(m: map<JsValue, JsValue>, items: seq<JsValue>): map<JsValue, JsValue>
    requires AllNamed(items)
  {
    if |items| == 0 then m
    else
      var last := items[|items| - 1];
      StoredAll(m, items[..|items| - 1])[NameOf(last) := last]
  }

  /** The last item named `name`, if any. */
  function LastNamed(items: seq<JsValue>, name: JsValue): (r: Option<JsValue>)
    requires AllNamed(items)
    ensures r.Some? ==> r.value in items && NameOf(r.value) == name
    ensures r.None? <==> forall i :: 0 <= i < |items| ==> NameOf(items[i]) != name
  {
    if |items| == 0 then None
    else if NameOf(items[|items| - 1]) == name then Some(items[|items| - 1])
    else LastNamed(items[..|items| - 1], name)
  }

  /** Storing the items in turn keeps every earlier key and adds each item's name;
      under each name it leaves the last item of that name (a later entry
      overwrites an earlier one), and every other key keeps its value. */
  lemma {:induction false} StoredAllContents(m: map<JsValue, JsValue>, items: seq<JsValue>, k: JsValue)
    requires AllNamed(items)
    ensures k in StoredAll(m, items) <==> k in m || LastNamed(items, k).Some?
    ensures LastNamed(items, k).Some? ==> StoredAll(m, items)[k] == LastNamed(items, k).value
    ensures LastNamed(items, k).None? && k in m ==> StoredAll(m, items)[k] == m[k]
  {
    if |items| > 0 {
      StoredAllContents(m, items[..|items| - 1], k);
    }
  }

  /** Storing the same items again changes nothing. */
  lemma StoredAllTwice(m: map<JsValue, JsValue>, items: seq<JsValue>)
    requires AllNamed(items)
    ensures StoredAll(StoredAll(m, items), items) == StoredAll(m, items)
  {
    var once := StoredAll(m, items);
    var twice := StoredAll(once, items);
    forall k
      ensures k in twice <==> k in once
      ensures k in twice ==> twice[k] == once[k]
    {
      StoredAllContents(m, items, k);
      StoredAllContents(once, items, k);
    }
  }

  /** The outcome of a request: the map afterwards, and whether the handler threw
      (after changing the map up to that point). */
  datatype Outcome = Outcome(scenarios: map<JsValue, JsValue>, thrown: bool)

  function Without(m: map<JsValue, JsValue>, names: set<JsValue>): (r: map<JsValue, JsValue>)
    ensures r.Keys == m.Keys - names
    ensures forall k :: k in r ==> r[k] == m[k]
  {
    map k | k in m && k !in names :: m[k]
  }

  /** The items a truthy Add lists. */
  function AddItems(body: JsValue): seq<JsValue> {
    var add := Property(body, "Add");
    if Truthy(add) then ListOf(add) else []
  }

  /** Logging a truthy Current converts it to a string, which can throw. */
  predicate CurrentThrows(body: JsValue) {
    var current := Property(body, "Current");
    Truthy(current) && ToStringThrows(current)
  }

  /** The handler's effect: clear when Clear is truthy; store each item of a truthy
      Add under its name, stopping with a TypeError at the first undefined or null
      item; then, if nothing threw, delete each name a truthy Remove lists, and
      finally log a truthy Current, which throws when its string conversion does. */
  function AfterScenarios(m: map<JsValue, JsValue>, body: JsValue): Outcome {
    if !Destructurable(body) then Outcome(m, true)
    else
      var base := if Truthy(Property(body, "Clear")) then map[] else m;
      var items := AddItems(body);
      var k := FirstNullish(items);
      var stored := StoredAll(base, items[..k]);
      if k < |items| then Outcome(stored, true)
      else Outcome(Without(stored, Named(Property(body, "Remove"))), CurrentThrows(body))
  }

  /** The handler throws exactly when the request cannot be destructured, Add
      lists an undefined or null item, or a truthy Current cannot be converted
      to a string for the log line. */
  lemma ThrowsOnNullishItem(m: map<JsValue, JsValue>, body: JsValue)
    ensures AfterScenarios(m, body).thrown <==>
      (!Destructurable(body) || !AllNamed(AddItems(body)) || CurrentThrows(body))
  {
    var items := AddItems(body);
    var k := FirstNullish(items);
    if k == |items| {
      assert items[..k] == items;
    }
  }

  /** When every Add item can be read, the keys afterwards are
      ((Clear ? {} : K) + names(Add)) - Remove, and each key holds the last item
      Add stored under it, or else its old value; the handler then throws only
      when logging Current does, after all of these updates. */
  lemma ScenarioContents(m: map<JsValue, JsValue>, body: JsValue, key: JsValue)
    requires Destructurable(body) && AllNamed(AddItems(body))
    ensures var r := AfterScenarios(m, body);
      var kept := if Truthy(Property(body, "Clear")) then map[] else m;
      var last := LastNamed(AddItems(body), key);
      && (r.thrown <==> CurrentThrows(body))
      && (key in r.scenarios <==>
          (key in kept || last.Some?) && key !in Named(Property(body, "Remove")))
      && (key in r.scenarios && last.Some? ==> r.scenarios[key] == last.value)
      && (key in r.scenarios && last.None? ==> r.scenarios[key] == kept[key])
  {
    var items := AddItems(body);
    var k := FirstNullish(items);
    assert k == |items|;
    assert items[..k] == items;
    var kept := if Truthy(Property(body, "Clear")) then map[] else m;
    StoredAllContents(kept, items, key);
  }

  /** Remove runs after Add: a name both list ends up absent. */
  lemma RemoveAfterAdd(m: map<JsValue, JsValue>, body: JsValue, sc: JsValue)
    requires Destructurable(body) && AllNamed(AddItems(body))
    requires sc in AddItems(body) && Destructurable(sc)
    requires NameOf(sc) in Named(Property(body, "Remove"))
    ensures NameOf(sc) !in AfterScenarios(m, body).scenarios
  {
    ScenarioContents(m, body, NameOf(sc));
  }

  /** A key that the request neither clears, adds nor removes keeps its value. */
  lemma UntouchedKeyKept(m: map<JsValue, JsValue>, body: JsValue, key: JsValue)
    requires Destructurable(body) && AllNamed(AddItems(body))
    requires key in m && !Truthy(Property(body, "Clear"))
    requires forall i :: 0 <= i < |AddItems(body)| ==> NameOf(AddItems(body)[i]) != key
    requires key !in Named(Property(body, "Remove"))
    ensures key in AfterScenarios(m, body).scenarios
    ensures AfterScenarios(m, body).scenarios[key] == m[key]
  {
    ScenarioContents(m, body, key);
  }

  /** Current is only logged: adding it to a request changes no entry of the
      map. The request then throws exactly when an Add item cannot be read or
      Current's string conversion throws; a Current that converts changes
      nothing at all. */
  lemma CurrentIgnored(m: map<JsValue, JsValue>, members: seq<(string, JsValue)>, current: JsValue)
    ensures AfterScenarios(m, Obj(members + [("Current", current)])).scenarios
      == AfterScenarios(m, Obj(members)).scenarios
    ensures AfterScenarios(m, Obj(members + [("Current", current)])).thrown <==>
      !AllNamed(AddItems(Obj(members))) || (Truthy(current) && ToStringThrows(current))
    ensures !ToStringThrows(current) && !CurrentThrows(Obj(members)) ==>
      AfterScenarios(m, Obj(members + [("Current", current)])) == AfterScenarios(m, Obj(members))
  {
    var with := Obj(members + [("Current", current)]);
    var without := Obj(members);
    CurrentMemberLast(members, current);
    SameSections(m, with, without);
    ThrowsOnNullishItem(m, with);
  }

  /** Two requests that read the same Clear, Add and Remove leave the same
      map, and the same whole outcome when neither Current throws. */
  lemma SameSections(m: map<JsValue, JsValue>, b1: JsValue, b2: JsValue)
    requires Destructurable(b1) && Destructurable(b2)
    requires Property(b1, "Clear") == Property(b2, "Clear")
    requires Property(b1, "Add") == Property(b2, "Add")
    requires Property(b1, "Remove") == Property(b2, "Remove")
    ensures AfterScenarios(m, b1).scenarios == AfterScenarios(m, b2).scenarios
    ensures !CurrentThrows(b1) && !CurrentThrows(b2) ==> AfterScenarios(m, b1) == AfterScenarios(m, b2)
  {
    assert AddItems(b1) == AddItems(b2);
  }

  /** A Current member appended last is what Current reads, and Add, Remove
      and Clear read as before. */
  lemma CurrentMemberLast(members: seq<(string, JsValue)>, current: JsValue)
    ensures var with := Obj(members + [("Current", current)]);
      && Property(with, "Current") == current
      && Property(with, "Add") == Property(Obj(members), "Add")
      && Property(with, "Remove") == Property(Obj(members), "Remove")
      && Property(with, "Clear") == Property(Obj(members), "Clear")
  {
    LookupLastWins(members, "Current", current);
    LookupOtherKey(members, "Add", "Current", current);
    LookupOtherKey(members, "Remove", "Current", current);
    LookupOtherKey(members, "Clear", "Current", current);
  }

  /** `{"Current": {"toString": 0}}` leaves the map as it was and throws while
      the log line is built; `{"Current": "a"}` changes nothing and throws
      nothing. */
  lemma CurrentWithToStringThrows(m: map<JsValue, JsValue>)
    ensures AfterScenarios(m, Obj([("Current", Obj([("toString", Num(0))]))])) == Outcome(m, true)
    ensures AfterScenarios(m, Obj([("Current", Str("a"))])) == Outcome(m, false)
  {
    var body := Obj([("Current", Obj([("toString", Num(0))]))]);
    assert ToStringThrows(Obj([("toString", Num(0))])) by {
      assert [("toString", Num(0))][0].0 == "toString";
    }
    assert Property(body, "Add") == Undefined;
    assert Property(body, "Remove") == Undefined;
    assert Property(body, "Clear") == Undefined;
    assert Without(m, {}) == m;
    assert StoredAll(m, []) == m;
  }

  /** Sending the same request twice has the effect of sending it once. */
  lemma ScenarioHandlerIdempotent(m: map<JsValue, JsValue>, body: JsValue)
    ensures AfterScenarios(AfterScenarios(m, body).scenarios, body).scenarios
      == AfterScenarios(m, body).scenarios
  {
    if Destructurable(body) {
      var once := AfterScenarios(m, body);
      var twice := AfterScenarios(once.scenarios, body);
      var items := AddItems(body);
      var k := FirstNullish(items);
      var prefix := items[..k];
      var removed := Named(Property(body, "Remove"));
      if Truthy(Property(body, "Clear")) {
        assert twice == once;
      } else {
        forall key
          ensures key in twice.scenarios <==> key in once.scenarios
          ensures key in twice.scenarios ==> twice.scenarios[key] == once.scenarios[key]
        {
          StoredAllContents(m, prefix, key);
          StoredAllContents(once.scenarios, prefix, key);
        }
      }
    }
  }

  /** The server's scenarios by name, which the handler changes in place. */
  class ScenarioStore {
    var scenarios: map<JsValue, JsValue>

    constructor()
      ensures scenarios == map[]
    {
      scenarios := map[];
    }

    /** handleScenarios: clear, then set each listed scenario under its name, then
        delete each listed name, then log Current; returns whether it threw. */
    method HandleScenarios(body: JsValue) returns (thrown: bool)
      modifies this
      ensures (scenarios, thrown) == (AfterScenarios(old(scenarios), body).scenarios,
                                      AfterScenarios(old(scenarios), body).thrown)
    {
      if !Destructurable(body) {
        return true;
      }
      if Truthy(Property(body, "Clear")) {
        scenarios := map[];
      }
      var items := AddItems(body);
      var k := StoreItems(items);
      if k < |items| {
        return true;
      }
      assert items[..k] == items;
      var remove := Property(body, "Remove");
      if Truthy(remove) {
        RemoveNames(ListOf(remove));
      } else {
        assert scenarios == Without(scenarios, Named(remove));
      }
      var current := Property(body, "Current");
      thrown := Truthy(current) && ToStringThrows(current);
    }

    /** The Add loop: `scenarios.set(sc.name, sc)` for each item, stopping at the
        first undefined or null one, whose index it returns (|items| if none). */
    method StoreItems(items: seq<JsValue>) returns (k: nat)
      modifies this
      ensures k == FirstNullish(items)
      ensures scenarios == StoredAll(old(scenarios), items[..k])
    {
      var i := 0;
      while i < |items|
        invariant 0 <= i <= |items|
        invariant AllNamed(items[..i])
        invariant scenarios == StoredAll(old(scenarios), items[..i])
      {
        var sc := items[i];
        if !Destructurable(sc) {
          FirstNullishAt(items, i);
          return i;
        }
        assert items[..i + 1] == items[..i] + [sc];
        assert items[..i + 1][..i] == items[..i];
        scenarios := scenarios[NameOf(sc) := sc];
        i := i + 1;
      }
      FirstNullishAt(items, i);
      return i;
    }

    /** The Remove loop: `scenarios.delete(name)` for each listed name. */
    method RemoveNames(list: seq<JsValue>)
      modifies this
      ensures scenarios == Without(old(scenarios), SetOf(list))
    {
      var j := 0;
      while j < |list|
        invariant 0 <= j <= |list|
        invariant scenarios == Without(old(scenarios), SetOf(list[..j]))
      {
        assert list[..j + 1] == list[..j] + [list[j]];
        scenarios := Without(scenarios, {list[j]});
        j := j + 1;
      }
      assert list[..|list|] == list;
    }
  }

  /** The first nullish item is the first index past a run of named items. */
  lemma {:induction false} FirstNullishAt(items: seq<JsValue>, i: nat)
    requires i <= |items| && AllNamed(items[..i])
    requires i < |items| ==> !Destructurable(items[i])
    ensures FirstNullish(items) == i
  {
    if |items| > 0 && i > 0 {
      assert items[0] == items[..i][0];
      assert items[1..][..i - 1] == items[..i][1..];
      FirstNullishAt(items[1..], i - 1);
    }
  }
}
