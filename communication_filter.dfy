/** Hex wildcard filters that hide matching entries from the communication
    log: a duplicate-free list of patterns over `[0-9A-F*]`, where `*` stands
    for any run of hex digits. */
module Filters {
  import opened Common
  import opened RequestState

  /** `isValid`: the pattern matches `[0-9A-F*]+`. */
  predicate IsValidPattern(p: string) {
    |p| > 0 && forall i :: 0 <= i < |p| ==> IsUpperHexChar(p[i]) || p[i] == '*'
  }

  // ------------------------------------------------------------------
  // The list operations, on values

  /** The list after `add(pattern)`. */
  function AfterAdd(filters: seq<string>, pattern: string): seq<string> {
    var cleaned := Upper(pattern);
    if !IsValidPattern(cleaned) then filters else Distinct(filters + [cleaned])
  }

  /** The list after `remove(pattern)`. */
  function AfterRemove(filters: seq<string>, pattern: string): seq<string> {
    Distinct(RemoveAll(filters, pattern))
  }

  /** The list after `replace(old, new)`: `List.minus` drops the first `old`. */
  function AfterReplace(filters: seq<string>, oldPattern: string, newPattern: string): seq<string> {
    var cleaned := Upper(newPattern);
    if !IsValidPattern(cleaned) then filters else Distinct(RemoveFirst(filters, oldPattern) + [cleaned])
  }

  function UpperAll(list: seq<string>): (r: seq<string>)
    ensures |r| == |list|
    ensures forall i :: 0 <= i < |list| ==> r[i] == Upper(list[i])
  {
    seq(|list|, i requires 0 <= i < |list| => Upper(list[i]))
  }

  /** The list after `setAll(list)`. */
  function AfterSetAll(list: seq<string>): seq<string> {
    Distinct(Filter(UpperAll(list), IsValidPattern))
  }

  /** An `add` whose upper-cased pattern is not valid leaves the list as it is. */
  lemma AddRejectsInvalid(filters: seq<string>, pattern: string)
    requires !IsValidPattern(Upper(pattern))
    ensures AfterAdd(filters, pattern) == filters
  {
  }

  /** A valid `add` keeps the earlier patterns in order and appends the
      upper-cased pattern unless it is already present. */
  lemma AddAppendsOnce(filters: seq<string>, pattern: string)
    requires NoDup(filters) && IsValidPattern(Upper(pattern))
    ensures AfterAdd(filters, pattern)
      == (if Upper(pattern) in filters then filters else filters + [Upper(pattern)])
    ensures NoDup(AfterAdd(filters, pattern))
  {
    DistinctAppend(filters, Upper(pattern));
  }

  /** `remove` deletes exactly the equal pattern; the others keep their order. */
  lemma RemoveDeletesExactly(filters: seq<string>, pattern: string)
    requires NoDup(filters)
    ensures AfterRemove(filters, pattern) == RemoveAll(filters, pattern)
    ensures pattern !in AfterRemove(filters, pattern)
    ensures forall x :: x in AfterRemove(filters, pattern) <==> x in filters && x != pattern
  {
    NoDupRemoveAll(filters, pattern);
    DistinctOfNoDup(RemoveAll(filters, pattern));
  }

  lemma {:induction false} NoDupRemoveAll(s: seq<string>, x: string)
    requires NoDup(s)
    ensures NoDup(RemoveAll(s, x))
  {
    if |s| > 0 {
      assert NoDup(s[1..]);
      NoDupRemoveAll(s[1..], x);
      assert s[0] !in s[1..];
    }
  }

  /** A `replace` with an invalid new pattern changes nothing; otherwise the old
      pattern is gone (unless it is the new one) and the new one is present. */
  lemma ReplaceSwaps(filters: seq<string>, oldPattern: string, newPattern: string)
    requires NoDup(filters)
    ensures !IsValidPattern(Upper(newPattern)) ==> AfterReplace(filters, oldPattern, newPattern) == filters
    ensures IsValidPattern(Upper(newPattern)) ==>
      Upper(newPattern) in AfterReplace(filters, oldPattern, newPattern)
      && (oldPattern != Upper(newPattern) ==> oldPattern !in AfterReplace(filters, oldPattern, newPattern))
      && forall x :: x in filters && x != oldPattern ==> x in AfterReplace(filters, oldPattern, newPattern)
    ensures NoDup(AfterReplace(filters, oldPattern, newPattern))
  {
    if IsValidPattern(Upper(newPattern)) {
      RemoveFirstNoDup(filters, oldPattern);
    }
  }

  /** `setAll` keeps exactly the upper-cased inputs that are valid, once each. */
  lemma SetAllKeepsValid(list: seq<string>)
    ensures NoDup(AfterSetAll(list))
    ensures forall x :: x in AfterSetAll(list) <==>
      IsValidPattern(x) && exists i :: 0 <= i < |list| && Upper(list[i]) == x
  {
    var up := UpperAll(list);
    forall x
      ensures x in AfterSetAll(list) <==> IsValidPattern(x) && exists i :: 0 <= i < |list| && Upper(list[i]) == x
    {
      if x in up {
        var i :| 0 <= i < |up| && up[i] == x;
        assert Upper(list[i]) == x;
      }
    }
  }

  // ------------------------------------------------------------------
  // Matching

  /** `patternMatches`: the pattern, with each `*` read as `[0-9A-F]*` and every
      other character read literally, matches the whole message. */
  function Matches(p: string, m: string): bool
    decreases |p| + |m|
  {
    if |p| == 0 then |m| == 0
    else if p[0] == '*' then
      Matches(p[1..], m) || (|m| > 0 && IsUpperHexChar(m[0]) && Matches(p, m[1..]))
    else |m| > 0 && m[0] == p[0] && Matches(p[1..], m[1..])
  }

  function StarCount(p: string): nat {
    if |p| == 0 then 0 else (if p[0] == '*' then 1 else 0) + StarCount(p[1..])
  }

  /** The text obtained by putting `fills[k]` in place of the k-th `*`. */
  function Instantiate(p: string, fills: seq<string>): string
    requires |fills| == StarCount(p)
  {
    if |p| == 0 then ""
    else if p[0] == '*' then fills[0] + Instantiate(p[1..], fills[1..])
    else [p[0]] + Instantiate(p[1..], fills)
  }

  predicate HexFills(fills: seq<string>) {
    forall k :: 0 <= k < |fills| ==> AllUpperHex(fills[k])
  }

  /** A leading `*` absorbs any run of hex digits. */
  lemma {:induction false} StarAbsorbs(p: string, f: string, rest: string)
    requires |p| > 0 && p[0] == '*' && AllUpperHex(f)
    requires Matches(p[1..], rest)
    ensures Matches(p, f + rest)
    decreases |f|
  {
    var m := f + rest;
    if |f| == 0 {
      assert m == rest;
    } else {
      StarAbsorbs(p, f[1..], rest);
      assert m[0] == f[0] && IsUpperHexChar(m[0]);
      assert m[1..] == f[1..] + rest;
      assert Matches(p, m[1..]);
    }
  }

  /** Every instance of a pattern (each `*` replaced by hex digits) matches it. */
  lemma {:induction false} InstanceMatches(p: string, fills: seq<string>)
    requires |fills| == StarCount(p) && HexFills(fills)
    ensures Matches(p, Instantiate(p, fills))
  {
    if |p| > 0 {
      if p[0] == '*' {
        InstanceMatches(p[1..], fills[1..]);
        StarAbsorbs(p, fills[0], Instantiate(p[1..], fills[1..]));
      } else {
        InstanceMatches(p[1..], fills);
        var m := [p[0]] + Instantiate(p[1..], fills);
        assert m[1..] == Instantiate(p[1..], fills);
      }
    }
  }

  /** Every message a pattern matches is an instance of it. */
  lemma {:induction false} MatchIsInstance(p: string, m: string) returns (fills: seq<string>)
    requires Matches(p, m)
    ensures |fills| == StarCount(p) && HexFills(fills) && Instantiate(p, fills) == m
    decreases |p| + |m|
  {
    if |p| == 0 {
      fills := [];
    } else if p[0] == '*' {
      if Matches(p[1..], m) {
        var tail := MatchIsInstance(p[1..], m);
        fills := [""] + tail;
        assert fills[1..] == tail;
      } else {
        var more := MatchIsInstance(p, m[1..]);
        fills := [[m[0]] + more[0]] + more[1..];
        assert fills[1..] == more[1..];
        assert Instantiate(p, more) == more[0] + Instantiate(p[1..], more[1..]);
        assert m == [m[0]] + m[1..];
      }
    } else {
      fills := MatchIsInstance(p[1..], m[1..]);
      assert m == [m[0]] + m[1..];
    }
  }

  /** A pattern without `*` matches exactly itself. */
  lemma {:induction false} LiteralMatches(p: string, m: string)
    requires '*' !in p
    ensures Matches(p, m) <==> p == m
    decreases |p| + |m|
  {
    if |p| > 0 {
      assert '*' !in p[1..];
      if |m| > 0 {
        LiteralMatches(p[1..], m[1..]);
        assert p == [p[0]] + p[1..];
        assert m == [m[0]] + m[1..];
      }
    }
  }

  /** `*` followed by literal text q matches the messages that end in q after
      a run of hex digits. */
  lemma {:induction false} StarThenLiteral(q: string, m: string)
    requires '*' !in q
    ensures Matches(['*'] + q, m) <==> EndsWith(m, q) && AllUpperHex(m[..|m| - |q|])
    decreases |m|
  {
    var p := ['*'] + q;
    assert p[1..] == q;
    LiteralMatches(q, m);
    if |m| > 0 {
      StarThenLiteral(q, m[1..]);
      if EndsWith(m[1..], q) {
        assert m[1..][|m[1..]| - |q|..] == m[|m| - |q|..];
      }
      if |q| < |m| {
        assert m[..|m| - |q|][1..] == m[1..][..|m[1..]| - |q|];
        assert m[1..][|m[1..]| - |q|..] == m[|m| - |q|..];
      }
    }
  }

  /** The payload `shouldHide` compares: the text after the first ':' (the whole
      message if there is none), spaces removed, upper-cased. */
  function Payload(message: string): (r: string)
    ensures ' ' !in r
    ensures ':' !in message ==> r == Upper(RemoveChar(message, ' '))
  {
    var r := Upper(RemoveChar(SubstringAfter(message, ':'), ' '));
    assert forall i :: 0 <= i < |r| ==> r[i] != ' ';
    r
  }

  function AnyMatches(filters: seq<string>, hex: string): (r: bool)
    ensures r <==> exists i :: 0 <= i < |filters| && Matches(filters[i], hex)
  {
    if |filters| == 0 then false
    else Matches(filters[0], hex) || AnyMatches(filters[1..], hex)
  }

  /** `shouldHide(message)` against the given list. */
  function ShouldHide(filters: seq<string>, message: string): bool {
    AnyMatches(filters, Payload(message))
  }

  /** shouldHide holds exactly when some pattern, with each `*` filled by hex
      digits, spells the payload. */
  lemma ShouldHideMeansInstance(filters: seq<string>, message: string)
    ensures ShouldHide(filters, message) <==>
      exists i, fills :: 0 <= i < |filters| && |fills| == StarCount(filters[i]) && HexFills(fills)
        && Instantiate(filters[i], fills) == Payload(message)
  {
    var hex := Payload(message);
    if ShouldHide(filters, message) {
      var i :| 0 <= i < |filters| && Matches(filters[i], hex);
      var fills := MatchIsInstance(filters[i], hex);
    }
    forall i, fills | 0 <= i < |filters| && |fills| == StarCount(filters[i]) && HexFills(fills)
      && Instantiate(filters[i], fills) == hex
      ensures ShouldHide(filters, message)
    {
      InstanceMatches(filters[i], fills);
    }
  }

  /** A tagged log line "TAG: HEX" has the payload HEX. */
  lemma PayloadOfTagged(tag: string, hex: string)
    requires ':' !in tag && AllUpperHex(hex)
    ensures Payload(tag + ": " + hex) == hex
  {
    assert tag + ": " + hex == tag + [':'] + (" " + hex);
    SubstringAfterFirst(tag, ':', " " + hex);
    assert ' ' !in hex;
    RemoveCharAbsent(hex, ' ');
    assert RemoveChar(" " + hex, ' ') == RemoveChar(hex, ' ') by {
      assert (" " + hex)[1..] == hex;
    }
    UpperOfUpperHex(hex);
  }

  /** A bare hex line is its own payload. */
  lemma PayloadOfBare(hex: string)
    requires AllUpperHex(hex)
    ensures Payload(hex) == hex
  {
    assert ':' !in hex && ' ' !in hex;
    RemoveCharAbsent(hex, ' ');
    UpperOfUpperHex(hex);
  }

  /** Against a single pattern, shouldHide is that pattern's match. */
  lemma ShouldHideOne(p: string, message: string)
    ensures ShouldHide([p], message) <==> Matches(p, Payload(message))
  {
    assert [p][1..] == [];
  }

  /** The filter tests: "AABB" hides "REQ: AABB" but not "RESP: AABBAA". */
  lemma ExactPatternExample()
    ensures ShouldHide(["AABB"], "REQ" + ": " + "AABB")
    ensures !ShouldHide(["AABB"], "RESP" + ": " + "AABBAA")
  {
    ExactHides();
    ExactKeeps();
  }

  lemma ExactHides()
    ensures ShouldHide(["AABB"], "REQ" + ": " + "AABB")
  {
    PayloadOfTagged("REQ", "AABB");
    LiteralMatches("AABB", "AABB");
    ShouldHideOne("AABB", "REQ" + ": " + "AABB");
  }

  lemma ExactKeeps()
    ensures !ShouldHide(["AABB"], "RESP" + ": " + "AABBAA")
  {
    PayloadOfTagged("RESP", "AABBAA");
    LiteralMatches("AABB", "AABBAA");
    ShouldHideOne("AABB", "RESP" + ": " + "AABBAA");
  }

  /** The filter tests: "*900" hides "11900" but not "90011". */
  lemma WildcardPatternExample()
    ensures ShouldHide(["*" + "900"], "11" + "900")
    ensures !ShouldHide(["*" + "900"], "900" + "11")
  {
    WildcardHides();
    WildcardKeeps();
  }

  lemma WildcardHides()
    ensures ShouldHide(["*" + "900"], "11" + "900")
  {
    var m := "11" + "900";
    PayloadOfBare(m);
    StarThenLiteral("900", m);
    assert m[|m| - 3..] == "900" && m[..|m| - 3] == "11";
    ShouldHideOne("*" + "900", m);
  }

  lemma WildcardKeeps()
    ensures !ShouldHide(["*" + "900"], "900" + "11")
  {
    var m := "900" + "11";
    PayloadOfBare(m);
    StarThenLiteral("900", m);
    assert m[|m| - 3..] == "011";
    ShouldHideOne("*" + "900", m);
  }

  // ------------------------------------------------------------------
  // The filter store

  class CommunicationFilter {
    /** The published list of patterns (`filters`). */
    var filters: seq<string>
    /** The string set last written to the preferences. */
    var stored: set<string>
    const tracker: RequestStateTracker

    ghost predicate Valid()
      reads this
    {
      NoDup(filters)
    }

    constructor(tracker: RequestStateTracker)
      ensures filters == [] && stored == {} && this.tracker == tracker
      ensures Valid()
    {
      filters := [];
      stored := {};
      this.tracker := tracker;
    }

    /** `load`: the stored set, in the order `order` in which it enumerates. */
    method Load(order: seq<string>)
      requires NoDup(order) && forall x :: x in order <==> x in stored
      modifies this
      ensures filters == order && stored == old(stored)
      ensures Valid()
    {
      filters := order;
    }

    /** `add(pattern, context)`; `persist` says whether a context was passed. */
    method Add(pattern: string, persist: bool)
      requires Valid()
      modifies this, tracker
      ensures Valid()
      ensures filters == AfterAdd(old(filters), pattern)
      ensures IsValidPattern(Upper(pattern)) ==>
        tracker.version == old(tracker.version) + 1
        && stored == (if persist then (set x | x in filters) else old(stored))
      ensures !IsValidPattern(Upper(pattern)) ==>
        filters == old(filters) && stored == old(stored) && tracker.version == old(tracker.version)
    {
      var cleaned := Upper(pattern);
      if !IsValidPattern(cleaned) {
        return;
      }
      var newSet := Distinct(filters + [cleaned]);
      filters := newSet;
      if persist {
        stored := set x | x in newSet;
      }
      tracker.MarkChanged();
    }

    /** `remove(pattern, context)`: always counts as a change. */
    method Remove(pattern: string, persist: bool)
      requires Valid()
      modifies this, tracker
      ensures Valid()
      ensures filters == AfterRemove(old(filters), pattern)
      ensures stored == (if persist then (set x | x in filters) else old(stored))
      ensures tracker.version == old(tracker.version) + 1
    {
      var newSet := Distinct(RemoveAll(filters, pattern));
      filters := newSet;
      if persist {
        stored := set x | x in newSet;
      }
      tracker.MarkChanged();
    }

    /** `replace(old, new, context)` */
    method Replace(oldPattern: string, newPattern: string, persist: bool)
      requires Valid()
      modifies this, tracker
      ensures Valid()
      ensures filters == AfterReplace(old(filters), oldPattern, newPattern)
      ensures IsValidPattern(Upper(newPattern)) ==>
        tracker.version == old(tracker.version) + 1
        && stored == (if persist then (set x | x in filters) else old(stored))
      ensures !IsValidPattern(Upper(newPattern)) ==>
        filters == old(filters) && stored == old(stored) && tracker.version == old(tracker.version)
    {
      var cleaned := Upper(newPattern);
      if !IsValidPattern(cleaned) {
        return;
      }
      var newSet := Distinct(RemoveFirst(filters, oldPattern) + [cleaned]);
      filters := newSet;
      if persist {
        stored := set x | x in newSet;
      }
      tracker.MarkChanged();
    }

    /** `setAll(list, context)`: always persists. */
    method SetAll(list: seq<string>)
      modifies this, tracker
      ensures Valid()
      ensures filters == AfterSetAll(list)
      ensures stored == set x | x in filters
      ensures tracker.version == old(tracker.version) + 1
    {
      var cleaned := Distinct(Filter(UpperAll(list), IsValidPattern));
      filters := cleaned;
      stored := set x | x in cleaned;
      tracker.MarkChanged();
    }

    /** `clear(context)` */
    method Clear(persist: bool)
      modifies this, tracker
      ensures Valid()
      ensures filters == []
      ensures persist ==> stored == {}
      ensures !persist ==> stored == old(stored)
      ensures tracker.version == old(tracker.version) + 1
    {
      filters := [];
      if persist {
        stored := {};
      }
      tracker.MarkChanged();
    }

    /** `shouldHide(message)` on the current list. */
    method ShouldHideNow(message: string) returns (hidden: bool)
      ensures hidden == ShouldHide(filters, message)
    {
      var hex := Upper(RemoveChar(SubstringAfter(message, ':'), ' '));
      hidden := false;
      var i := 0;
      while i < |filters|
        invariant 0 <= i <= |filters|
        invariant hidden <==> exists k :: 0 <= k < i && Matches(filters[k], hex)
      {
        if Matches(filters[i], hex) {
          hidden := true;
        }
        i := i + 1;
      }
    }
  }
}
