/** The communication screen: the two log panes (server and NFC) over the
    entries the filters let through, the rule that keeps at least one pane
    shown, the colour of each entry, the filter editor with its import and
    export, and the name of a saved log file. */
module CommScreen {
  import opened Common
  import Filters
  import CommLog

  // ------------------------------------------------------------------
  // The two panes

  /** A pane toggle: switching a pane off is ignored while the other pane is
      off too. */
  function Toggled(mine: bool, other: bool, requested: bool): (r: bool)
    ensures mine || other ==> r || other
    ensures requested || other ==> r == requested
    ensures !requested && !other ==> r == mine
  {
    if requested || other then requested else mine
  }

  class PaneToggles {
    var showServer: bool
    var showNfc: bool

    predicate Valid()
      reads this
    {
      showServer || showNfc
    }

    constructor ()
      ensures Valid() && showServer && showNfc
    {
      showServer := true;
      showNfc := true;
    }

    method SetShowServer(requested: bool)
      requires Valid()
      modifies this
      ensures Valid()
      ensures showServer == Toggled(old(showServer), showNfc, requested) && showNfc == old(showNfc)
    {
      showServer := Toggled(showServer, showNfc, requested);
    }

    method SetShowNfc(requested: bool)
      requires Valid()
      modifies this
      ensures Valid()
      ensures showNfc == Toggled(old(showNfc), showServer, requested) && showServer == old(showServer)
    {
      showNfc := Toggled(showNfc, showServer, requested);
    }
  }

  /** Whatever sequence of toggles is applied, some pane stays shown. */
  function AfterToggles(server: bool, nfc: bool, requests: seq<(bool, bool)>): (r: (bool, bool))
  {
    if |requests| == 0 then (server, nfc)
    else
      var prev := AfterToggles(server, nfc, requests[..|requests| - 1]);
      var req := requests[|requests| - 1];
      if req.0 then (Toggled(prev.0, prev.1, req.1), prev.1) else (prev.0, Toggled(prev.1, prev.0, req.1))
  }

  lemma {:induction false} SomePaneShown(server: bool, nfc: bool, requests: seq<(bool, bool)>)
    requires server || nfc
    ensures AfterToggles(server, nfc, requests).0 || AfterToggles(server, nfc, requests).1
  {
    if |requests| > 0 {
      SomePaneShown(server, nfc, requests[..|requests| - 1]);
    }
  }

  // ------------------------------------------------------------------
  // The entries shown

  /** `entries.filterNot { shouldHide(it.message) }` */
  function FilteredEntries(filters: seq<string>, entries: seq<CommLog.Entry>): (r: seq<CommLog.Entry>)
    ensures forall e :: e in r <==> e in entries && !Filters.ShouldHide(filters, e.message)
    ensures |r| <= |entries|
  {
    Filter(entries, (e: CommLog.Entry) => !Filters.ShouldHide(filters, e.message))
  }

  /** The shown entries keep the log's order and multiplicity: an entry no
      filter hides appears in its place, a hidden one is skipped. */
  lemma FilteredEntriesCons(filters: seq<string>, e: CommLog.Entry, entries: seq<CommLog.Entry>)
    ensures FilteredEntries(filters, [e] + entries) ==
      (if Filters.ShouldHide(filters, e.message) then [] else [e]) + FilteredEntries(filters, entries)
  {
    var p := (x: CommLog.Entry) => !Filters.ShouldHide(filters, x.message);
    FilterConcat([e], entries, p);
    assert [e][..0] == [];
  }

  function ServerEntries(shown: seq<CommLog.Entry>): seq<CommLog.Entry> {
    Filter(shown, (e: CommLog.Entry) => e.isServer)
  }

  function NfcEntries(shown: seq<CommLog.Entry>): seq<CommLog.Entry> {
    Filter(shown, (e: CommLog.Entry) => !e.isServer)
  }

  /** The two panes split the shown entries: every shown entry is in exactly
      one of them, and together they are as long as the shown list. */
  lemma {:induction false} PanesPartition(shown: seq<CommLog.Entry>)
    ensures |ServerEntries(shown)| + |NfcEntries(shown)| == |shown|
    ensures forall e :: e in shown <==> e in ServerEntries(shown) || e in NfcEntries(shown)
    ensures forall e :: e in ServerEntries(shown) ==> e.isServer
    ensures forall e :: e in NfcEntries(shown) ==> !e.isServer
  {
    if |shown| > 0 {
      PanesPartition(shown[..|shown| - 1]);
    }
  }

  // ------------------------------------------------------------------
  // Entry colours

  datatype EntryColour = Yellow | Cyan | Orange | Green | Red | Unspecified

  /** The colour of an entry: requests, responses, AID-to-select notes (in any
      case), then successes and failures. */
  function Colour(e: CommLog.Entry): (c: EntryColour)
    ensures c == Yellow <==> StartsWith(e.message, "REQ:")
    ensures c == Cyan <==> !StartsWith(e.message, "REQ:") && StartsWith(e.message, "RESP:")
    ensures c == Orange <==> (!StartsWith(e.message, "REQ:") && !StartsWith(e.message, "RESP:")
      && StartsWith(Upper(e.message), "AID TO SELECT:"))
    ensures c == Green <==> (!StartsWith(e.message, "REQ:") && !StartsWith(e.message, "RESP:")
      && !StartsWith(Upper(e.message), "AID TO SELECT:") && e.isSuccess == Some(true))
    ensures c == Red <==> (!StartsWith(e.message, "REQ:") && !StartsWith(e.message, "RESP:")
      && !StartsWith(Upper(e.message), "AID TO SELECT:") && e.isSuccess == Some(false))
  {
    if StartsWith(e.message, "REQ:") then Yellow
    else if StartsWith(e.message, "RESP:") then Cyan
    else if StartsWith(Upper(e.message), "AID TO SELECT:") then Orange
    else if e.isSuccess == Some(true) then Green
    else if e.isSuccess == Some(false) then Red
    else Unspecified
  }

  /** The tag decides before the outcome: a failed request is still yellow. */
  lemma TagBeforeOutcome(hex: string, isServer: bool, now: int)
    ensures Colour(CommLog.Entry("REQ:" + hex, isServer, Some(false), now)) == Yellow
    ensures Colour(CommLog.Entry("RESP:" + hex, isServer, Some(true), now)) == Cyan
  {
    assert ("REQ:" + hex)[..4] == "REQ:";
    assert ("RESP:" + hex)[..5] == "RESP:";
    assert ("RESP:" + hex)[..4] != "REQ:" by { assert ("RESP:" + hex)[2] == 'S'; }
  }

  // ------------------------------------------------------------------
  // The filter editor

  /** What the editor's Save does with its input. */
  datatype FilterCommand = Rejected | AddPattern(pattern: string) | UpdatePattern(index: nat, pattern: string)

  /** Save: an input matching `[0-9A-F*]+` is added when no row is being
      edited and sent as an update of the edited row otherwise; any other
      input is rejected. */
  function SaveFilter(editing: Option<nat>, input: string): (r: FilterCommand)
    ensures r.Rejected? <==> !Filters.IsValidPattern(input)
    ensures r.AddPattern? <==> Filters.IsValidPattern(input) && editing.None?
    ensures !r.Rejected? ==> r.pattern == input
    ensures r.UpdatePattern? ==> editing == Some(r.index)
  {
    if !Filters.IsValidPattern(input) then Rejected
    else if editing.None? then AddPattern(input)
    else UpdatePattern(editing.value, input)
  }

  /** An accepted new pattern ends up in the filter list exactly once. */
  lemma SavedPatternListedOnce(filters: seq<string>, input: string)
    requires NoDup(filters) && SaveFilter(None, input).AddPattern?
    ensures input in Filters.AfterAdd(filters, input)
    ensures NoDup(Filters.AfterAdd(filters, input))
  {
    UpperOfUpperHexStar(input);
    Filters.AddAppendsOnce(filters, input);
  }

  lemma UpperOfUpperHexStar(p: string)
    requires Filters.IsValidPattern(p)
    ensures Upper(p) == p
  {
  }

  /** `importFilters`: each item upper-cased, the valid patterns kept, in
      input order. */
  function ImportedFilters(items: seq<string>): (r: seq<string>)
    ensures forall p :: p in r ==> Filters.IsValidPattern(p)
    ensures |r| <= |items|
  {
    if |items| == 0 then []
    else
      var p := Upper(items[|items| - 1]);
      ImportedFilters(items[..|items| - 1]) + (if Filters.IsValidPattern(p) then [p] else [])
  }

  method ImportFilters(items: seq<string>) returns (list: seq<string>)
    ensures list == ImportedFilters(items)
  {
    list := [];
    var i := 0;
    while i < |items|
      invariant 0 <= i <= |items|
      invariant list == ImportedFilters(items[..i])
    {
      var p := Upper(items[i]);
      assert items[..i + 1][..i] == items[..i];
      if Filters.IsValidPattern(p) {
        list := list + [p];
      }
      i := i + 1;
    }
    assert items[..i] == items;
  }

  /** Exporting a list of valid patterns and importing the file gives the
      list back. */
  lemma {:induction false} ExportImportRoundTrip(filters: seq<string>)
    requires |filters| > 0 && forall p :: p in filters ==> Filters.IsValidPattern(p)
    ensures ImportedFilters(ExportedList(filters).value) == filters
  {
    ImportKeepsValid(filters);
  }

  lemma {:induction false} ImportKeepsValid(filters: seq<string>)
    requires forall p :: p in filters ==> Filters.IsValidPattern(p)
    ensures ImportedFilters(filters) == filters
  {
    if |filters| > 0 {
      var init := filters[..|filters| - 1];
      assert forall p :: p in init ==> p in filters;
      ImportKeepsValid(init);
      UpperOfUpperHexStar(filters[|filters| - 1]);
      assert filters == init + [filters[|filters| - 1]];
    }
  }

  // ------------------------------------------------------------------
  // Saving the shown log

  /** The Save button writes the shown entries to "<scenario or log>_<stamp>.log",
      spaces in the scenario name turned into '_'. */
  lemma SaveFileName(scenario: Option<string>, stamp: string)
    ensures var n := (if scenario.Some? then scenario.value else "log");
      var name := CommLog.BuildFileName(scenario, stamp);
      StartsWith(name, ReplaceChar(n, ' ', '_') + "_")
      && EndsWith(name, stamp + ".log")
  {
    CommLog.BuildFileNameShape(scenario, stamp);
    var name := CommLog.BuildFileName(scenario, stamp);
    var suffix := stamp + ".log";
    assert name[|name| - |suffix|..] == suffix;
  }
}
