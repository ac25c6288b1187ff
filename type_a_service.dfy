/** The fixed Type A card service: it answers the one SELECT command for its
    own application identifier with 90 00 and every other command, or a
    missing one, with 6A 82. It keeps no state between commands. */
module TypeAService {
  import opened Common
  import ScenarioEngine

  /** SELECT by name (00 A4 04 00), Lc = 7, AID F0 01 02 03 04 05 06, Le = 00. */
  const SELECT_APDU: seq<byte> := [0x00, 0xA4, 0x04, 0x00, 0x07, 0xF0, 0x01, 0x02, 0x03, 0x04, 0x05, 0x06, 0x00]
  const SELECT_OK: seq<byte> := [0x90, 0x00]
  const UNKNOWN_COMMAND: seq<byte> := [0x6A, 0x82]

  /** `processCommandApdu`: a byte-for-byte comparison with the SELECT command. */
  function ProcessCommandApdu(command: Option<seq<byte>>): (r: seq<byte>)
    ensures r == SELECT_OK <==> command == Some(SELECT_APDU)
    ensures r != SELECT_OK ==> r == UNKNOWN_COMMAND
    ensures |r| == 2
  {
    if command.Some? && command.value == SELECT_APDU then SELECT_OK else UNKNOWN_COMMAND
  }

  /** A missing command is unknown. */
  lemma NullIsUnknown()
    ensures ProcessCommandApdu(None) == UNKNOWN_COMMAND
  {
  }

  /** Any proper prefix of the SELECT command, such as the bare header
      00 A4 04 00, is unknown, and so is any longer command that starts
      with it. */
  lemma PrefixIsUnknown(command: seq<byte>)
    requires command != SELECT_APDU
    requires command <= SELECT_APDU || SELECT_APDU <= command
    ensures ProcessCommandApdu(Some(command)) == UNKNOWN_COMMAND
  {
  }

  lemma BareHeaderIsUnknown()
    ensures ProcessCommandApdu(Some([0x00, 0xA4, 0x04, 0x00])) == UNKNOWN_COMMAND
  {
    PrefixIsUnknown([0x00, 0xA4, 0x04, 0x00]);
  }

  /** The accepted command is a SELECT by name in the sense the scenario
      engine uses, and it names the AID F0010203040506. */
  lemma SelectNamesServiceAid()
    ensures ScenarioEngine.IsSelectCommand(SELECT_APDU)
    ensures ScenarioEngine.HexDecode(ScenarioEngine.ExtractAid(SELECT_APDU)) == Some([0xF0, 0x01, 0x02, 0x03, 0x04, 0x05, 0x06])
  {
    assert SELECT_APDU[5..12] == [0xF0, 0x01, 0x02, 0x03, 0x04, 0x05, 0x06];
  }

  /** Responses depend on the command alone: a session of commands gets,
      command by command, the response that command gets on its own. */
  function Session(commands: seq<Option<seq<byte>>>): (r: seq<seq<byte>>)
    ensures |r| == |commands|
  {
    if |commands| == 0 then [] else Session(commands[..|commands| - 1]) + [ProcessCommandApdu(commands[|commands| - 1])]
  }

  lemma {:induction false} SessionIsPointwise(commands: seq<Option<seq<byte>>>, i: nat)
    requires i < |commands|
    ensures Session(commands)[i] == ProcessCommandApdu(commands[i])
  {
    if i < |commands| - 1 {
      SessionIsPointwise(commands[..|commands| - 1], i);
    }
  }
}
