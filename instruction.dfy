/** The instructions the voting program accepts. Account order for all three:
    0 is the poll account (written), 1 is the signer (creator, voter or
    caller). */
module Instruction {
  import opened Types

  datatype VotingInstruction =
    | CreatePoll(question: string, options: seq<string>, startTime: u64, endTime: u64)
    | Vote(optionIndex: u32)
    | ClosePoll

  /** Instruction bytes, as far as decoding goes: either the encoding of an
      instruction or bytes that do not decode to one. */
  datatype InstructionData = Encoded(instruction: VotingInstruction) | Malformed

  function DecodeInstruction(data: InstructionData): Option<VotingInstruction>
  {
    match data
    case Encoded(ins) => Some(ins)
    case Malformed => None
  }
}
