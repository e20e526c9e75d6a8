/** The instruction processor over live accounts: vote and close load the
    poll into a local record, run their checks in order, update the local
    record and write it back over account 0's data; create builds a fresh
    record and writes it. Each is proved to do exactly what
    the matching function of `Handlers` says. */
module Processor {
  import opened Types
  import opened PollRecord
  import opened Instruction
  import opened Handlers

  /** An account handed in by the host. Only its data buffer changes. */
  class Account {
    const key: Pubkey
    const isSigner: bool
    /** Length of the data buffer, fixed by the host. */
    const capacity: nat
    var data: AccountData

    constructor (key: Pubkey, isSigner: bool, capacity: nat, data: AccountData)
      ensures this.key == key && this.isSigner == isSigner
      ensures this.capacity == capacity && this.data == data
    {
      this.key := key;
      this.isSigner := isSigner;
      this.capacity := capacity;
      this.data := data;
    }

    function View(): AccountView
      reads this
    {
      AccountView(key, isSigner, capacity, data)
    }

    /** Serialize a record over the data buffer; fails, writing nothing, when
        the encoding does not fit. */
    method Serialize(p: Poll) returns (r: Result<()>)
      modifies this
      ensures r == Status(Store(p, capacity))
      ensures data == if r.Ok? then Record(p) else old(data)
    {
      if EncodedLen(p) <= capacity {
        data := Record(p);
        r := Ok(());
      } else {
        r := Fail(Error(AccountDataTooSmall));
      }
    }
  }

  function Views(accounts: seq<Account>): seq<AccountView>
    reads accounts
  {
    seq(|accounts|, i reads accounts requires 0 <= i < |accounts| => accounts[i].View())
  }

  /** The only object a handler may write: the poll account. */
  function Writable(accounts: seq<Account>): set<Account>
  {
    if accounts == [] then {} else {accounts[0]}
  }

  /** `Vec::contains`: a linear scan for the key. */
  method Contains(voters: seq<Pubkey>, key: Pubkey) returns (found: bool)
    ensures found <==> key in voters
  {
    var i := 0;
    while i < |voters|
      invariant 0 <= i <= |voters|
      invariant key !in voters[..i]
    {
      if voters[i] == key {
        return true;
      }
      assert voters[..i + 1] == voters[..i] + [voters[i]];
      i := i + 1;
    }
    assert voters[..i] == voters;
    return false;
  }

  method ProcessCreatePoll(accounts: seq<Account>, question: string, options: seq<string>, startTime: u64, endTime: u64)
    returns (r: Result<()>)
    modifies Writable(accounts)
    ensures var out := CreatePollOutcome(old(Views(accounts)), question, options, startTime, endTime);
      r == Status(out) &&
      (accounts != [] ==> accounts[0].data == if out.Ok? then Record(out.value) else old(accounts[0].data))
  {
    if |accounts| < 2 {
      return Fail(Panic);
    }
    var pollAccount, creatorAccount := accounts[0], accounts[1];
    if !creatorAccount.isSigner {
      return Fail(Error(MissingRequiredSignature));
    }
    var poll := NewPoll(creatorAccount.key, question, options, startTime, endTime);
    r := pollAccount.Serialize(poll);
  }

  method ProcessVote(accounts: seq<Account>, optionIndex: u32, now: u64) returns (r: Result<()>)
    modifies Writable(accounts)
    ensures var out := VoteOutcome(old(Views(accounts)), optionIndex, now);
      r == Status(out) &&
      (accounts != [] ==> accounts[0].data == if out.Ok? then Record(out.value) else old(accounts[0].data))
  {
    if |accounts| < 2 {
      return Fail(Panic);
    }
    var pollAccount, voterAccount := accounts[0], accounts[1];
    if !voterAccount.isSigner {
      return Fail(Error(MissingRequiredSignature));
    }
    var decoded := Decode(pollAccount.data);
    if decoded.None? {
      return Fail(Error(InvalidAccountData));
    }
    var poll := decoded.value;
    if poll.isClosed {
      return Fail(Error(InvalidArgument));
    }
    if now < poll.startTime || now > poll.endTime {
      return Fail(Error(InvalidArgument));
    }
    var voted := Contains(poll.voters, voterAccount.key);
    if voted {
      return Fail(Error(Custom(DOUBLE_VOTE)));
    }
    var idx := optionIndex as nat;
    if idx >= |poll.options| {
      return Fail(Error(InvalidInstructionData));
    }
    if idx >= |poll.voteCounts| {
      return Fail(Panic);
    }
    var incremented := CheckedAdd(poll.voteCounts[idx], 1);
    if incremented.None? {
      return Fail(Error(Custom(COUNT_OVERFLOW)));
    }
    poll := poll.(voteCounts := poll.voteCounts[idx := incremented.value]);
    poll := poll.(voters := poll.voters + [voterAccount.key]);
    r := pollAccount.Serialize(poll);
  }

  method ProcessClosePoll(accounts: seq<Account>, now: u64) returns (r: Result<()>)
    modifies Writable(accounts)
    ensures var out := ClosePollOutcome(old(Views(accounts)), now);
      r == Status(out) &&
      (accounts != [] ==> accounts[0].data == if out.Ok? then Record(out.value) else old(accounts[0].data))
  {
    if |accounts| < 2 {
      return Fail(Panic);
    }
    var pollAccount, callerAccount := accounts[0], accounts[1];
    if !callerAccount.isSigner {
      return Fail(Error(MissingRequiredSignature));
    }
    var decoded := Decode(pollAccount.data);
    if decoded.None? {
      return Fail(Error(InvalidAccountData));
    }
    var poll := decoded.value;
    if poll.creator != callerAccount.key {
      return Fail(Error(IllegalOwner));
    }
    if poll.isClosed {
      return Fail(Error(InvalidArgument));
    }
    if now < poll.endTime {
      return Fail(Error(InvalidArgument));
    }
    poll := poll.(isClosed := true);
    r := pollAccount.Serialize(poll);
  }

  /** The entry point: decode the instruction, then dispatch. `now` stands for
      the clock the handlers read. */
  method ProcessInstruction(accounts: seq<Account>, instructionData: InstructionData, now: u64) returns (r: Result<()>)
    modifies Writable(accounts)
    ensures var out := InstructionOutcome(old(Views(accounts)), instructionData, now);
      r == Status(out) &&
      (accounts != [] ==> accounts[0].data == if out.Ok? then Record(out.value) else old(accounts[0].data))
  {
    var instruction := DecodeInstruction(instructionData);
    if instruction.None? {
      return Fail(Error(InvalidInstructionData));
    }
    match instruction.value
    case CreatePoll(question, options, startTime, endTime) =>
      r := ProcessCreatePoll(accounts, question, options, startTime, endTime);
    case Vote(optionIndex) =>
      r := ProcessVote(accounts, optionIndex, now);
    case ClosePoll =>
      r := ProcessClosePoll(accounts, now);
  }
}
