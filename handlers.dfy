/** What one invocation of the voting program does, as functions of the
    accounts it is given: either the poll record it writes into account 0, or
    how it fails. A failed invocation writes nothing. */
module Handlers {
  import opened Types
  import opened PollRecord
  import opened Instruction

  /** What the program can see of an account: its key, whether it signed the
      invocation, the length of its data buffer, and the buffer's contents. */
  datatype AccountView = AccountView(key: Pubkey, isSigner: bool, capacity: nat, data: AccountData)

  /** Writing a record back: the Borsh encoding must fit the buffer. */
  function Store(p: Poll, capacity: nat): Result<Poll>
  {
    if EncodedLen(p) <= capacity then Ok(p) else Fail(Error(AccountDataTooSmall))
  }

  /** Checks 3 to 7 of a vote on a decoded poll, then the update. The panic is
      the out-of-bounds index on a record whose counters are fewer than its
      options. */
  function CastVote(p: Poll, voter: Pubkey, optionIndex: u32, now: u64): Result<Poll>
  {
    if p.isClosed then Fail(Error(InvalidArgument))
    else if now < p.startTime || now > p.endTime then Fail(Error(InvalidArgument))
    else if voter in p.voters then Fail(Error(Custom(DOUBLE_VOTE)))
    else if optionIndex >= |p.options| then Fail(Error(InvalidInstructionData))
    else if optionIndex >= |p.voteCounts| then Fail(Panic)
    else match CheckedAdd(p.voteCounts[optionIndex], 1)
      case None => Fail(Error(Custom(COUNT_OVERFLOW)))
      case Some(n) => Ok(p.(voteCounts := p.voteCounts[optionIndex := n], voters := p.voters + [voter]))
  }

  /** Checks 3 to 5 of a close on a decoded poll, then the update. */
  function Close(p: Poll, caller: Pubkey, now: u64): Result<Poll>
  {
    if p.creator != caller then Fail(Error(IllegalOwner))
    else if p.isClosed then Fail(Error(InvalidArgument))
    else if now < p.endTime then Fail(Error(InvalidArgument))
    else Ok(p.(isClosed := true))
  }

  function CreatePollOutcome(accounts: seq<AccountView>, question: string, options: seq<string>, startTime: u64, endTime: u64): Result<Poll>
  {
    if |accounts| < 2 then Fail(Panic)
    else if !accounts[1].isSigner then Fail(Error(MissingRequiredSignature))
    else Store(NewPoll(accounts[1].key, question, options, startTime, endTime), accounts[0].capacity)
  }

  function VoteOutcome(accounts: seq<AccountView>, optionIndex: u32, now: u64): Result<Poll>
  {
    if |accounts| < 2 then Fail(Panic)
    else if !accounts[1].isSigner then Fail(Error(MissingRequiredSignature))
    else match Decode(accounts[0].data)
      case None => Fail(Error(InvalidAccountData))
      case Some(p) =>
        match CastVote(p, accounts[1].key, optionIndex, now)
        case Fail(f) => Fail(f)
        case Ok(q) => Store(q, accounts[0].capacity)
  }

  function ClosePollOutcome(accounts: seq<AccountView>, now: u64): Result<Poll>
  {
    if |accounts| < 2 then Fail(Panic)
    else if !accounts[1].isSigner then Fail(Error(MissingRequiredSignature))
    else match Decode(accounts[0].data)
      case None => Fail(Error(InvalidAccountData))
      case Some(p) =>
        match Close(p, accounts[1].key, now)
        case Fail(f) => Fail(f)
        case Ok(q) => Store(q, accounts[0].capacity)
  }

  /** Decode the instruction, then hand it to its handler. */
  function InstructionOutcome(accounts: seq<AccountView>, data: InstructionData, now: u64): Result<Poll>
  {
    match DecodeInstruction(data)
    case None => Fail(Error(InvalidInstructionData))
    case Some(CreatePoll(question, options, startTime, endTime)) =>
      CreatePollOutcome(accounts, question, options, startTime, endTime)
    case Some(Vote(optionIndex)) => VoteOutcome(accounts, optionIndex, now)
    case Some(ClosePoll) => ClosePollOutcome(accounts, now)
  }

  /** The result the host sees. */
  function Status(r: Result<Poll>): Result<()>
  {
    match r
    case Ok(_) => Ok(())
    case Fail(f) => Fail(f)
  }
}
