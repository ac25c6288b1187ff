/** The stub host card service of the Qt build: every command, present or
    not, is answered with 90 00. */
module HostApduService {
  import opened Common

  const OK: seq<byte> := [0x90, 0x00]

  /** `processCommandApdu` */
  function ProcessCommandApdu(apdu: Option<seq<byte>>): (r: seq<byte>)
    ensures r == [0x90, 0x00]
    ensures |r| == 2
  {
    OK
  }

  /** No command, and no history of earlier commands, changes the answer. */
  lemma AnswerIgnoresCommand(a: Option<seq<byte>>, b: Option<seq<byte>>)
    ensures ProcessCommandApdu(a) == ProcessCommandApdu(b)
  {
  }
}
