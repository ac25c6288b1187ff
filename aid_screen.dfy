/** The AID screen: the list of application identifiers the Type A service is
    registered for, edited by typing, adding, deleting and importing, and
    written back to the preferences and to the card-emulation registry after
    every change. */
module AidScreen {
  import opened Common
  import ScenarioEngine

  /** The AID the preferences hold when nothing was ever saved. */
  const DEFAULT_AID: string := "F0010203040506"

  /** `isValidAid`: 10 to 32 upper-case hex digits, an even number of them
      (5 to 16 bytes). */
  predicate IsValidAid(aid: string) {
    10 <= |aid| <= 32 && |aid| % 2 == 0 && AllUpperHex(aid)
  }

  lemma HexDigitOfValue(c: char)
    requires IsUpperHexChar(c)
    ensures ScenarioEngine.HexValue(c).Some?
    ensures ScenarioEngine.HexDigit(ScenarioEngine.HexValue(c).value) == c
  {
  }

  lemma HexPair(h: nat, l: nat)
    requires h < 16 && l < 16
    ensures (h * 16 + l) / 16 == h && (h * 16 + l) % 16 == l
  {
  }

  /** The byte two upper-case hex digits spell. */
  lemma PairAtOfHex(aid: string, i: nat)
    requires 2 * i + 1 < |aid| && AllUpperHex(aid)
    ensures ScenarioEngine.PairAt(aid, i) ==
      Some(ScenarioEngine.HexValue(aid[2 * i]).value * 16 + ScenarioEngine.HexValue(aid[2 * i + 1]).value)
  {
    assert IsUpperHexChar(aid[2 * i]) && IsUpperHexChar(aid[2 * i + 1]);
  }

  /** Decoding upper-case hex of even length and encoding it again gives the
      text back. */
  lemma DecodeThenEncode(aid: string)
    requires |aid| % 2 == 0 && AllUpperHex(aid)
    ensures ScenarioEngine.HexDecode(aid).Some?
    ensures ScenarioEngine.ToHex(ScenarioEngine.HexDecode(aid).value) == aid
  {
    UpperOfUpperHex(aid);
    forall i | 0 <= i < |aid| / 2 ensures ScenarioEngine.PairAt(aid, i).Some? {
      PairAtOfHex(aid, i);
    }
    var b := ScenarioEngine.HexDecode(aid).value;
    var h := ScenarioEngine.ToHex(b);
    forall i | 0 <= i < |b| ensures h[2 * i] == aid[2 * i] && h[2 * i + 1] == aid[2 * i + 1] {
      DecodedByteDigits(aid, i);
    }
    forall k | 0 <= k < |aid| ensures h[k] == aid[k] {
      var i := k / 2;
      if k % 2 == 0 {
        assert k == 2 * i;
      } else {
        assert k == 2 * i + 1;
      }
    }
  }

  /** The i-th decoded byte is spelled by the i-th pair of digits. */
  lemma DecodedByteDigits(aid: string, i: nat)
    requires 2 * i + 1 < |aid| && AllUpperHex(aid) && ScenarioEngine.HexDecode(aid).Some?
    ensures var b := ScenarioEngine.HexDecode(aid).value;
      && ScenarioEngine.HexDigit(b[i] / 16) == aid[2 * i]
      && ScenarioEngine.HexDigit(b[i] % 16) == aid[2 * i + 1]
  {
    UpperOfUpperHex(aid);
    PairAtOfHex(aid, i);
    var hi := ScenarioEngine.HexValue(aid[2 * i]).value;
    var lo := ScenarioEngine.HexValue(aid[2 * i + 1]).value;
    assert ScenarioEngine.HexDecode(aid).value[i] == hi * 16 + lo;
    HexPair(hi, lo);
    HexDigitOfValue(aid[2 * i]);
    HexDigitOfValue(aid[2 * i + 1]);
  }

  /** The valid AIDs are exactly the upper-case hex texts of 5 to 16 bytes. */
  lemma ValidAidIsHexOfBytes(aid: string)
    ensures IsValidAid(aid) <==>
      exists b: seq<byte> {:trigger ScenarioEngine.ToHex(b)} :: 5 <= |b| <= 16 && ScenarioEngine.ToHex(b) == aid
  {
    if IsValidAid(aid) {
      DecodeThenEncode(aid);
      var b := ScenarioEngine.HexDecode(aid).value;
      assert 5 <= |b| <= 16 && ScenarioEngine.ToHex(b) == aid;
    }
  }

  /** The examples: a seven-byte AID is valid; a four-byte one is too short. */
  lemma ValidAidExamples()
    ensures IsValidAid("A0000002471001")
    ensures !IsValidAid("AAFFCCDD")
    ensures !IsValidAid("a0000002471001")
  {
    assert !IsUpperHexChar("a0000002471001"[0]);
  }

  /** The new-AID field: the input upper-cased, kept only when it is at most
      32 hex digits; otherwise the field keeps its value. */
  function FilterAidInput(current: string, input: string): (r: string)
    ensures r == current || r == Upper(input)
    ensures r == Upper(input) <==> (|input| <= 32 && AllUpperHex(Upper(input))) || Upper(input) == current
    ensures r != current ==> |r| <= 32 && AllUpperHex(r)
  {
    var filtered := Upper(input);
    if |filtered| <= 32 && AllUpperHex(filtered) then filtered else current
  }

  /** The Add button's effect on the list: a valid AID that is not listed yet
      is appended; anything else leaves the list as it is. */
  function AddIfAbsent(aids: seq<string>, aid: string): (r: seq<string>)
    ensures IsValidAid(aid) && aid !in aids ==> r == aids + [aid]
    ensures !IsValidAid(aid) || aid in aids ==> r == aids
  {
    if IsValidAid(aid) && aid !in aids then aids + [aid] else aids
  }

  /** Adding never duplicates: after adding, the AID occurs once when it is
      valid and the list was free of duplicates. */
  lemma AddIfAbsentOnce(aids: seq<string>, aid: string)
    requires NoDup(aids) && IsValidAid(aid)
    ensures NoDup(AddIfAbsent(aids, aid)) && aid in AddIfAbsent(aids, aid)
  {
  }

  /** The AIDs `saveAids` keeps. */
  function ValidAids(aids: seq<string>): (r: seq<string>)
    ensures forall a :: a in r <==> a in aids && IsValidAid(a)
  {
    Filter(aids, IsValidAid)
  }

  /** What `saveAids` asks of the card-emulation registry. */
  datatype Registration = NotAsked | RemovedAll | Registered(aids: seq<string>)

  function RegistrationFor(valid: seq<string>): (r: Registration)
    ensures r.RemovedAll? <==> |valid| == 0
    ensures r.Registered? ==> r.aids == valid
  {
    if |valid| == 0 then RemovedAll else Registered(valid)
  }

  /** `importAids`: each item upper-cased, the valid ones kept, in input order. */
  function ImportedAids(items: seq<string>): (r: seq<string>)
    ensures forall a :: a in r ==> IsValidAid(a)
    ensures |r| <= |items|
  {
    if |items| == 0 then []
    else
      var a := Upper(items[|items| - 1]);
      ImportedAids(items[..|items| - 1]) + (if IsValidAid(a) then [a] else [])
  }

  /** Importing keeps input order: importing two lists one after the other
      gives the two imports concatenated. */
  lemma {:induction false} ImportedAidsAppend(xs: seq<string>, ys: seq<string>)
    ensures ImportedAids(xs + ys) == ImportedAids(xs) + ImportedAids(ys)
  {
    if |ys| > 0 {
      var init := ys[..|ys| - 1];
      assert (xs + ys)[..|xs + ys| - 1] == xs + init;
      assert (xs + ys)[|xs + ys| - 1] == ys[|ys| - 1];
      ImportedAidsAppend(xs, init);
    } else {
      assert xs + ys == xs;
    }
  }

  /** An item is imported iff its upper-cased form is a valid AID. */
  lemma {:induction false} ImportedAidsMembers(items: seq<string>, a: string)
    ensures a in ImportedAids(items) <==> exists i :: 0 <= i < |items| && Upper(items[i]) == a && IsValidAid(a)
  {
    if |items| > 0 {
      var init := items[..|items| - 1];
      ImportedAidsMembers(init, a);
      if exists i :: 0 <= i < |items| && Upper(items[i]) == a && IsValidAid(a) {
        var i :| 0 <= i < |items| && Upper(items[i]) == a && IsValidAid(a);
        if i < |items| - 1 {
          assert init[i] == items[i];
        }
      }
      if exists i :: 0 <= i < |init| && Upper(init[i]) == a && IsValidAid(a) {
        var i :| 0 <= i < |init| && Upper(init[i]) == a && IsValidAid(a);
        assert items[i] == init[i];
      }
    }
  }

  /** What reading a chosen document gives: no input stream, a text that is
      no JSON array of strings, or the array's items as strings. */
  datatype AidDocument = NoStream | Malformed | Items(items: seq<string>)

  /** The import loop. */
  method ImportAids(items: seq<string>) returns (list: seq<string>)
    ensures list == ImportedAids(items)
  {
    list := [];
    var i := 0;
    while i < |items|
      invariant 0 <= i <= |items|
      invariant list == ImportedAids(items[..i])
    {
      var aid := Upper(items[i]);
      assert items[..i + 1][..i] == items[..i];
      if IsValidAid(aid) {
        list := list + [aid];
      }
      i := i + 1;
    }
    assert items[..i] == items;
  }

  /** A list of valid AIDs imports unchanged: upper-casing leaves them as
      they are and the validity filter keeps them all. */
  lemma {:induction false} ImportedAidsOfValid(aids: seq<string>)
    requires forall a :: a in aids ==> IsValidAid(a)
    ensures ImportedAids(aids) == aids
  {
    if |aids| > 0 {
      var init := aids[..|aids| - 1];
      var a := aids[|aids| - 1];
      ImportedAidsOfValid(init);
      assert IsValidAid(a);
      assert Upper(a) == a by {
        forall i | 0 <= i < |a| ensures Upper(a)[i] == a[i] {
          assert IsUpperHexChar(a[i]);
        }
      }
      assert init + [a] == aids;
    }
  }

  /** Importing an exported, non-empty list of AIDs gives the list back. */
  lemma ExportImportAids(aids: seq<string>)
    requires |aids| > 0 && forall a :: a in aids ==> IsValidAid(a)
    ensures ExportedList(aids).Some?
    ensures ImportedAids(ExportedList(aids).value) == aids
  {
    ImportedAidsOfValid(aids);
  }

  /** The screen's state: the list shown, the new-AID field, and what was last
      written to the preferences and asked of the registry. */
  class AidList {
    var aids: seq<string>
    var newAid: string
    /** The preferences' AID set, None while it was never written. */
    var stored: Option<set<string>>
    var registration: Registration
    /** Whether the last save dropped invalid AIDs (the "ignored" toast). */
    var warned: bool

    /** Every AID shown is valid. */
    predicate Valid()
      reads this
    {
      forall a :: a in aids ==> IsValidAid(a)
    }

    /** `loadAids`: the stored set (or the default AID when none is stored),
        in the set's iteration order, without invalid entries. */
    constructor (stored: Option<set<string>>, iteration: seq<string>)
      requires forall a :: a in iteration <==> a in (if stored.Some? then stored.value else {DEFAULT_AID})
      ensures Valid()
      ensures aids == ValidAids(iteration) && newAid == ""
      ensures this.stored == stored && registration == NotAsked && !warned
    {
      aids := ValidAids(iteration);
      newAid := "";
      this.stored := stored;
      registration := NotAsked;
      warned := false;
    }

    /** `saveAids`: the valid subset, as a set, to the preferences; the registry
        is cleared when that subset is empty and given it otherwise. */
    method Save()
      modifies this
      ensures aids == old(aids) && newAid == old(newAid)
      ensures stored == Some(set a | a in ValidAids(aids))
      ensures registration == RegistrationFor(ValidAids(aids))
      ensures warned == (|ValidAids(aids)| != |aids|)
    {
      var valid := ValidAids(aids);
      warned := |valid| != |aids|;
      stored := Some(set a | a in valid);
      registration := RegistrationFor(valid);
    }

    /** The new-AID field's `onValueChange`. */
    method Type(input: string)
      modifies this
      ensures newAid == FilterAidInput(old(newAid), input)
      ensures aids == old(aids) && stored == old(stored) && registration == old(registration) && warned == old(warned)
    {
      newAid := FilterAidInput(newAid, input);
    }

    /** The Add button: a valid AID is appended when absent (and the list
        saved) and the field cleared; an invalid one changes nothing. */
    method Add() returns (accepted: bool)
      requires Valid()
      modifies this
      ensures Valid()
      ensures accepted == IsValidAid(old(newAid))
      ensures aids == AddIfAbsent(old(aids), old(newAid))
      ensures newAid == (if accepted then "" else old(newAid))
      ensures accepted && old(newAid) !in old(aids) ==>
        stored == Some(set a | a in aids) && registration == Registered(aids) && !warned
      ensures !(accepted && old(newAid) !in old(aids)) ==>
        stored == old(stored) && registration == old(registration) && warned == old(warned)
    {
      accepted := IsValidAid(newAid);
      if accepted {
        if newAid !in aids {
          aids := aids + [newAid];
          Save();
          assert ValidAids(aids) == aids by { FilterAllValid(aids); }
        }
        newAid := "";
      }
    }

    /** The Delete button of the row at `index`. */
    method Delete(index: nat)
      requires Valid() && index < |aids|
      modifies this
      ensures Valid()
      ensures aids == RemoveAt(old(aids), index) && newAid == old(newAid)
      ensures stored == Some(set a | a in aids) && registration == RegistrationFor(aids) && !warned
    {
      aids := RemoveAt(aids, index);
      Save();
      FilterAllValid(aids);
    }

    /** The import of a chosen document. A document that cannot be opened
        imports nothing: the list is cleared and saved. A text `JSONArray` or
        `getString` rejects throws before the list is touched, so nothing
        changes and no count is shown. Otherwise the imported list replaces
        the shown one and is saved. */
    method Import(doc: AidDocument) returns (count: Option<nat>)
      requires Valid()
      modifies this
      ensures Valid()
      ensures doc.Malformed? ==> (count.None? && aids == old(aids) && newAid == old(newAid)
        && stored == old(stored) && registration == old(registration) && warned == old(warned))
      ensures !doc.Malformed? ==> (
        aids == (if doc.Items? then ImportedAids(doc.items) else []) && newAid == old(newAid)
        && count == Some(|aids|)
        && stored == Some(set a | a in aids) && registration == RegistrationFor(aids) && !warned)
    {
      if doc.Malformed? {
        return None;
      }
      var imported: seq<string> := [];
      if doc.Items? {
        imported := ImportAids(doc.items);
      }
      aids := imported;
      Save();
      FilterAllValid(aids);
      count := Some(|imported|);
    }
  }

  /** Filtering a list of valid AIDs keeps it whole. */
  lemma {:induction false} FilterAllValid(aids: seq<string>)
    requires forall a :: a in aids ==> IsValidAid(a)
    ensures ValidAids(aids) == aids
  {
    if |aids| > 0 {
      assert forall a :: a in aids[..|aids| - 1] ==> a in aids;
      FilterAllValid(aids[..|aids| - 1]);
      assert aids == aids[..|aids| - 1] + [aids[|aids| - 1]];
    }
  }
}
