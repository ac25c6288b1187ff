/** The user settings that decide how the emulator answers an APDU that no
    scenario step handles: whether several AIDs may be selected, and the
    response used while selected and while not selected. */
module Settings {
  import opened Common

  /** The responses on offer for unexpected APDUs. */
  datatype DefaultResponse = Success | FileNotFound

  /** The status word a response sends. */
  function Data(r: DefaultResponse): (d: seq<byte>)
    ensures |d| == 2
    ensures r.Success? <==> d == [0x90, 0x00]
    ensures r.FileNotFound? <==> d == [0x6A, 0x82]
  {
    match r
    case Success => [0x90, 0x00]
    case FileNotFound => [0x6A, 0x82]
  }

  /** The label the settings screen shows. */
  function Label(r: DefaultResponse): string {
    match r
    case Success => "Success (9000)"
    case FileNotFound => "File Not Found (6A82)"
  }

  /** The enum constant's `name`, the text stored in the preferences. */
  function Name(r: DefaultResponse): string {
    match r
    case Success => "Success"
    case FileNotFound => "FileNotFound"
  }

  /** `DefaultResponse.valueOf(name)`: None where the JVM throws. */
  function ValueOf(name: string): (r: Option<DefaultResponse>)
    ensures r.Some? ==> Name(r.value) == name
    ensures (exists d: DefaultResponse :: Name(d) == name) ==> r.Some?
  {
    if name == "Success" then Some(Success)
    else if name == "FileNotFound" then Some(FileNotFound)
    else None
  }

  /** Every response reads back from the name it is stored under. */
  lemma ValueOfName(r: DefaultResponse)
    ensures ValueOf(Name(r)) == Some(r)
  {
  }

  const DEFAULT_ALLOW_MULTI_SELECT := false
  const DEFAULT_SELECTED := Success
  const DEFAULT_UNSELECTED := FileNotFound

  class SettingsManager {
    var allowMultiSelect: bool
    var selectedResponse: DefaultResponse
    var unselectedResponse: DefaultResponse
    /** The three preferences, absent until first written. */
    var prefMulti: Option<bool>
    var prefSelected: Option<string>
    var prefUnselected: Option<string>

    /** The published values start at the defaults. */
    constructor(prefMulti: Option<bool>, prefSelected: Option<string>, prefUnselected: Option<string>)
      ensures !allowMultiSelect && selectedResponse == Success && unselectedResponse == FileNotFound
      ensures this.prefMulti == prefMulti && this.prefSelected == prefSelected
      ensures this.prefUnselected == prefUnselected
    {
      allowMultiSelect := DEFAULT_ALLOW_MULTI_SELECT;
      selectedResponse := DEFAULT_SELECTED;
      unselectedResponse := DEFAULT_UNSELECTED;
      this.prefMulti := prefMulti;
      this.prefSelected := prefSelected;
      this.prefUnselected := prefUnselected;
    }

    /** `load`: each value comes from its preference, or its default when the
        key is missing. A stored name that is no response makes `valueOf`
        throw (`ok` false); the values read before it have been set. */
    method Load() returns (ok: bool)
      modifies this
      ensures allowMultiSelect == (if prefMulti.Some? then prefMulti.value else false)
      ensures var sel := ValueOf(if prefSelected.Some? then prefSelected.value else "Success");
        var unsel := ValueOf(if prefUnselected.Some? then prefUnselected.value else "FileNotFound");
        ok == (sel.Some? && unsel.Some?)
        && selectedResponse == (if sel.Some? then sel.value else old(selectedResponse))
        && unselectedResponse == (if sel.Some? && unsel.Some? then unsel.value else old(unselectedResponse))
      ensures prefMulti == old(prefMulti) && prefSelected == old(prefSelected)
      ensures prefUnselected == old(prefUnselected)
      ensures prefSelected.None? && prefUnselected.None? ==>
        ok && selectedResponse == DEFAULT_SELECTED && unselectedResponse == DEFAULT_UNSELECTED
    {
      allowMultiSelect := if prefMulti.Some? then prefMulti.value else false;
      var sel := ValueOf(if prefSelected.Some? then prefSelected.value else Name(Success));
      if sel.None? {
        return false;
      }
      selectedResponse := sel.value;
      var unsel := ValueOf(if prefUnselected.Some? then prefUnselected.value else Name(FileNotFound));
      if unsel.None? {
        return false;
      }
      unselectedResponse := unsel.value;
      ok := true;
    }

    /** `setAllowMultiSelect`: publishes and persists the same value. */
    method SetAllowMultiSelect(allow: bool)
      modifies this
      ensures allowMultiSelect == allow && prefMulti == Some(allow)
      ensures selectedResponse == old(selectedResponse) && unselectedResponse == old(unselectedResponse)
      ensures prefSelected == old(prefSelected) && prefUnselected == old(prefUnselected)
    {
      allowMultiSelect := allow;
      prefMulti := Some(allow);
    }

    /** `setSelectedResponse`: publishes the response and persists its name. */
    method SetSelectedResponse(resp: DefaultResponse)
      modifies this
      ensures selectedResponse == resp && prefSelected == Some(Name(resp))
      ensures allowMultiSelect == old(allowMultiSelect) && unselectedResponse == old(unselectedResponse)
      ensures prefMulti == old(prefMulti) && prefUnselected == old(prefUnselected)
    {
      selectedResponse := resp;
      prefSelected := Some(Name(resp));
    }

    /** `setUnselectedResponse`: publishes the response and persists its name. */
    method SetUnselectedResponse(resp: DefaultResponse)
      modifies this
      ensures unselectedResponse == resp && prefUnselected == Some(Name(resp))
      ensures allowMultiSelect == old(allowMultiSelect) && selectedResponse == old(selectedResponse)
      ensures prefMulti == old(prefMulti) && prefSelected == old(prefSelected)
    {
      unselectedResponse := resp;
      prefUnselected := Some(Name(resp));
    }
  }
}
