// The example server's AID handler: a request's Clear, Add and Remove applied,
// in that order, to the server's set of AIDs.

module AidHandler {
  import opened Common
  import opened JsValues

  /** The set after a request, as set algebra: ((Clear ? {} : S) + Add) - Remove.
      A request that cannot be destructured throws before touching the set. */
  function AfterAid(aids: set<JsValue>, body: JsValue): (r: set<JsValue>)
  {
    if !Destructurable(body) then aids
    else
      var kept := if Truthy(Property(body, "Clear")) then {} else aids;
      (kept + Named(Property(body, "Add"))) - Named(Property(body, "Remove"))
  }

  /** An AID is in the set afterwards exactly when it was there and Clear was
      falsy, or Add named it, and Remove did not name it. */
  lemma AidMembership(aids: set<JsValue>, body: JsValue, x: JsValue)
    requires Destructurable(body)
    ensures x in AfterAid(aids, body) <==>
      ((x in aids && !Truthy(Property(body, "Clear"))) || x in Named(Property(body, "Add")))
      && x !in Named(Property(body, "Remove"))
  {
  }

  /** Remove runs after Add: an AID both name ends up absent. */
  lemma RemoveBeatsAdd(aids: set<JsValue>, body: JsValue, x: JsValue)
    requires Destructurable(body)
    requires x in Named(Property(body, "Add")) && x in Named(Property(body, "Remove"))
    ensures x !in AfterAid(aids, body)
  {
  }

  /** A truthy Clear leaves only what Add names. */
  lemma ClearKeepsOnlyAdded(aids: set<JsValue>, body: JsValue)
    requires Destructurable(body) && Truthy(Property(body, "Clear"))
    ensures AfterAid(aids, body) <= Named(Property(body, "Add"))
  {
  }

  /** A request whose Add, Remove and Clear are all falsy or absent changes nothing. */
  lemma FalsyRequestKeepsSet(aids: set<JsValue>, body: JsValue)
    requires !Truthy(Property(body, "Clear")) && !Truthy(Property(body, "Add"))
    requires !Truthy(Property(body, "Remove"))
    ensures AfterAid(aids, body) == aids
  {
  }

  /** An empty string is falsy: `Add: ""` adds nothing. */
  lemma EmptyStringAddsNothing(aids: set<JsValue>)
    ensures AfterAid(aids, Obj([("Add", Str(""))])) == aids
  {
  }

  /** Adding an AID already present leaves the set as it is. */
  lemma AddPresentIsNoOp(aids: set<JsValue>, aid: JsValue)
    requires aid in aids && Truthy(aid) && !aid.Arr?
    ensures AfterAid(aids, Obj([("Add", aid)])) == aids
  {
  }

  /** Sending the same request twice has the effect of sending it once. */
  lemma AidHandlerIdempotent(aids: set<JsValue>, body: JsValue)
    ensures AfterAid(AfterAid(aids, body), body) == AfterAid(aids, body)
  {
  }

  /** The server's set of AIDs, which the handler changes in place. */
  class AidStore {
    var aids: set<JsValue>

    constructor()
      ensures aids == {}
    {
      aids := {};
    }

    /** handleAid: clear, then add each listed AID, then delete each listed AID.
        Returns whether destructuring the request threw. */
    method HandleAid(body: JsValue) returns (thrown: bool)
      modifies this
      ensures thrown <==> !Destructurable(body)
      ensures aids == AfterAid(old(aids), body)
    {
      if !Destructurable(body) {
        return true;
      }
      thrown := false;
      var add, remove, clear := Property(body, "Add"), Property(body, "Remove"), Property(body, "Clear");
      if Truthy(clear) {
        aids := {};
      }
      if Truthy(add) {
        AddAll(ListOf(add));
      }
      if Truthy(remove) {
        DeleteAll(ListOf(remove));
      }
    }

    /** The Add loop: `aids.add(aid)` for each listed AID. */
    method AddAll(list: seq<JsValue>)
      modifies this
      ensures aids == old(aids) + SetOf(list)
    {
      var i := 0;
      while i < |list|
        invariant 0 <= i <= |list|
        invariant aids == old(aids) + SetOf(list[..i])
      {
        assert list[..i + 1] == list[..i] + [list[i]];
        aids := aids + {list[i]};
        i := i + 1;
      }
      assert list[..|list|] == list;
    }

    /** The Remove loop: `aids.delete(aid)` for each listed AID. */
    method DeleteAll(list: seq<JsValue>)
      modifies this
      ensures aids == old(aids) - SetOf(list)
    {
      var i := 0;
      while i < |list|
        invariant 0 <= i <= |list|
        invariant aids == old(aids) - SetOf(list[..i])
      {
        assert list[..i + 1] == list[..i] + [list[i]];
        aids := aids - {list[i]};
        i := i + 1;
      }
      assert list[..|list|] == list;
    }
  }
}
