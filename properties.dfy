/** Properties of the voting program, stated over the handler semantics of
    `Handlers` (which the imperative handlers of `Processor` are proved to
    follow): the order of the checks, what a successful call writes, the
    record invariant, and what a whole sequence of invocations does to one
    poll account. */
module Properties {
  import opened Types
  import opened PollRecord
  import opened Instruction
  import opened Handlers

  /** Voting is possible at `now`: the poll is open and `now` lies in the
      window, both ends included. */
  predicate InWindow(p: Poll, now: u64)
  {
    !p.isClosed && p.startTime <= now <= p.endTime
  }

  // ---- Decoding and signatures ----

  /** Bytes that are not an instruction are rejected before any handler runs,
      whatever and however many accounts are passed. */
  lemma MalformedInstructionRejected(accounts: seq<AccountView>, data: InstructionData, now: u64)
    requires DecodeInstruction(data).None?
    ensures InstructionOutcome(accounts, data, now) == Fail(Error(InvalidInstructionData))
  {
  }

  /** Every handler rejects an unsigned second account before it looks at the
      poll account. */
  lemma SignatureCheckedFirst(accounts: seq<AccountView>, data: InstructionData, now: u64)
    requires |accounts| >= 2 && !accounts[1].isSigner && DecodeInstruction(data).Some?
    ensures InstructionOutcome(accounts, data, now) == Fail(Error(MissingRequiredSignature))
    ensures forall d: AccountData :: InstructionOutcome(accounts[0 := accounts[0].(data := d)], data, now) == Fail(Error(MissingRequiredSignature))
  {
  }

  /** Fewer than two accounts: the handler's indexing panics. */
  lemma ShortAccountListPanics(accounts: seq<AccountView>, data: InstructionData, now: u64)
    requires |accounts| < 2 && DecodeInstruction(data).Some?
    ensures InstructionOutcome(accounts, data, now) == Fail(Panic)
  {
  }

  // ---- Create ----

  /** A signed create succeeds exactly when the new record fits the buffer
      (nothing is asked of the times or the options), and then writes a fresh,
      consistent poll. */
  lemma {:induction false} CreateWritesFreshPoll(accounts: seq<AccountView>, question: string, options: seq<string>, startTime: u64, endTime: u64)
    requires |accounts| >= 2 && accounts[1].isSigner
    ensures var out := CreatePollOutcome(accounts, question, options, startTime, endTime);
      (out.Ok? <==> EncodedLen(NewPoll(accounts[1].key, question, options, startTime, endTime)) <= accounts[0].capacity) &&
      (!out.Ok? ==> out == Fail(Error(AccountDataTooSmall))) &&
      (out.Ok? ==>
        var p := out.value;
        p.creator == accounts[1].key && p.question == question && p.options == options &&
        |p.voteCounts| == |options| && (forall i | 0 <= i < |options| :: p.voteCounts[i] == 0) &&
        p.startTime == startTime && p.endTime == endTime && !p.isClosed && p.voters == [] &&
        Consistent(p))
  {
    NewPollConsistent(accounts[1].key, question, options, startTime, endTime);
  }

  // ---- Vote ----

  /** The vote checks in order; the first that fails decides the error. */
  lemma VoteChecksInOrder(accounts: seq<AccountView>, optionIndex: u32, now: u64)
    requires |accounts| >= 2
    ensures var out, voter := VoteOutcome(accounts, optionIndex, now), accounts[1];
      (!voter.isSigner ==> out == Fail(Error(MissingRequiredSignature))) &&
      (voter.isSigner && accounts[0].data.Unreadable? ==> out == Fail(Error(InvalidAccountData))) &&
      (voter.isSigner && accounts[0].data.Record? ==>
        var p := accounts[0].data.poll;
        (p.isClosed ==> out == Fail(Error(InvalidArgument))) &&
        (!p.isClosed && (now < p.startTime || now > p.endTime) ==> out == Fail(Error(InvalidArgument))) &&
        (InWindow(p, now) && voter.key in p.voters ==> out == Fail(Error(Custom(DOUBLE_VOTE)))) &&
        (InWindow(p, now) && voter.key !in p.voters && optionIndex >= |p.options| ==>
          out == Fail(Error(InvalidInstructionData))) &&
        ((InWindow(p, now) && voter.key !in p.voters && optionIndex < |p.options| && optionIndex < |p.voteCounts| &&
          p.voteCounts[optionIndex] == U64_MAX) ==> out == Fail(Error(Custom(COUNT_OVERFLOW)))))
  {
  }

  /** A vote succeeds exactly when every check passes and the record, one key
      longer, still fits the buffer; it then raises the chosen counter by one,
      appends the voter, and changes nothing else. */
  lemma VoteSucceedsExactly(accounts: seq<AccountView>, optionIndex: u32, now: u64)
    requires |accounts| >= 2
    ensures var out, voter := VoteOutcome(accounts, optionIndex, now), accounts[1];
      out.Ok? <==>
        voter.isSigner && accounts[0].data.Record? &&
        var p := accounts[0].data.poll;
        InWindow(p, now) && voter.key !in p.voters && optionIndex < |p.options| && optionIndex < |p.voteCounts| &&
        p.voteCounts[optionIndex] < U64_MAX && EncodedLen(p) + 32 <= accounts[0].capacity
    ensures var out, voter := VoteOutcome(accounts, optionIndex, now), accounts[1];
      out.Ok? ==>
        var p, q := accounts[0].data.poll, out.value;
        |q.voteCounts| == |p.voteCounts| &&
        q.voteCounts[optionIndex] == p.voteCounts[optionIndex] + 1 &&
        (forall j | 0 <= j < |p.voteCounts| && j != optionIndex :: q.voteCounts[j] == p.voteCounts[j]) &&
        q.voters == p.voters + [voter.key] &&
        q.creator == p.creator && q.question == p.question && q.options == p.options &&
        q.startTime == p.startTime && q.endTime == p.endTime && q.isClosed == p.isClosed
  {
  }

  /** Once a key's vote is stored, the same key voting again, for any option,
      is rejected as a double vote. */
  lemma RepeatVoteRejected(accounts: seq<AccountView>, optionIndex: u32, again: u32, now: u64)
    requires |accounts| >= 2 && VoteOutcome(accounts, optionIndex, now).Ok?
    ensures var after := accounts[0 := accounts[0].(data := Record(VoteOutcome(accounts, optionIndex, now).value))];
      VoteOutcome(after, again, now) == Fail(Error(Custom(DOUBLE_VOTE)))
  {
  }

  /** On a consistent record a vote never hits the out-of-bounds panic. */
  lemma ConsistentVoteNeverPanics(accounts: seq<AccountView>, optionIndex: u32, now: u64)
    requires |accounts| >= 2 && accounts[0].data.Record? && Consistent(accounts[0].data.poll)
    ensures VoteOutcome(accounts, optionIndex, now) != Fail(Panic)
  {
  }

  lemma {:induction false} VoteKeepsConsistency(accounts: seq<AccountView>, optionIndex: u32, now: u64)
    requires |accounts| >= 2 && accounts[0].data.Record? && Consistent(accounts[0].data.poll)
    ensures var out := VoteOutcome(accounts, optionIndex, now);
      out.Ok? ==> Consistent(out.value)
  {
    var p := accounts[0].data.poll;
    if VoteOutcome(accounts, optionIndex, now).Ok? {
      SumIncrement(p.voteCounts, optionIndex);
      var q := VoteOutcome(accounts, optionIndex, now).value;
      assert q.voters == p.voters + [accounts[1].key];
      assert accounts[1].key !in p.voters;
    }
  }

  // ---- Close ----

  /** The close checks in order; the first that fails decides the error. */
  lemma CloseChecksInOrder(accounts: seq<AccountView>, now: u64)
    requires |accounts| >= 2
    ensures var out, caller := ClosePollOutcome(accounts, now), accounts[1];
      (!caller.isSigner ==> out == Fail(Error(MissingRequiredSignature))) &&
      (caller.isSigner && accounts[0].data.Unreadable? ==> out == Fail(Error(InvalidAccountData))) &&
      (caller.isSigner && accounts[0].data.Record? ==>
        var p := accounts[0].data.poll;
        (p.creator != caller.key ==> out == Fail(Error(IllegalOwner))) &&
        (p.creator == caller.key && p.isClosed ==> out == Fail(Error(InvalidArgument))) &&
        (p.creator == caller.key && !p.isClosed && now < p.endTime ==> out == Fail(Error(InvalidArgument))))
  {
  }

  /** A close on a record that fits its buffer succeeds exactly when the
      creator signs, the poll is open and the end time is reached (it cannot
      run out of space, the record keeps its size); it only sets `isClosed`. */
  lemma CloseSucceedsExactly(accounts: seq<AccountView>, now: u64)
    requires |accounts| >= 2
    requires accounts[0].data.Record? ==> EncodedLen(accounts[0].data.poll) <= accounts[0].capacity
    ensures var out, caller := ClosePollOutcome(accounts, now), accounts[1];
      (out.Ok? <==>
        caller.isSigner && accounts[0].data.Record? &&
        var p := accounts[0].data.poll;
        p.creator == caller.key && !p.isClosed && now >= p.endTime) &&
      (out.Ok? ==> out.value == accounts[0].data.poll.(isClosed := true)) &&
      out != Fail(Error(AccountDataTooSmall))
  {
  }

  /** No handler takes a closed poll back to open except create, which
      overwrites the whole record. */
  lemma ClosedStaysClosed(accounts: seq<AccountView>, data: InstructionData, now: u64)
    requires accounts != [] && accounts[0].data.Record? && accounts[0].data.poll.isClosed
    requires DecodeInstruction(data).Some? && !DecodeInstruction(data).value.CreatePoll?
    ensures InstructionOutcome(accounts, data, now).Fail?
  {
  }

  // ---- Every invocation keeps the record consistent ----

  lemma {:induction false} InstructionKeepsConsistency(accounts: seq<AccountView>, data: InstructionData, now: u64)
    requires accounts != [] && accounts[0].data.Record? ==> Consistent(accounts[0].data.poll)
    ensures var out := InstructionOutcome(accounts, data, now);
      out.Ok? ==> Consistent(out.value)
  {
    match DecodeInstruction(data)
    case None =>
    case Some(CreatePoll(question, options, startTime, endTime)) =>
      if |accounts| >= 2 && accounts[1].isSigner {
        CreateWritesFreshPoll(accounts, question, options, startTime, endTime);
      }
    case Some(Vote(optionIndex)) =>
      if |accounts| >= 2 && accounts[0].data.Record? {
        VoteKeepsConsistency(accounts, optionIndex, now);
      }
    case Some(ClosePoll) =>
  }

  // ---- Sequences of invocations on one poll account ----

  /** One invocation against the poll account: the second account (creator,
      voter or caller), the instruction bytes, and the clock. */
  datatype Call = Call(signer: AccountView, instruction: InstructionData, now: u64)

  /** An accepted vote. */
  datatype Ballot = Ballot(voter: Pubkey, option: nat)

  /** The poll account after one invocation: the written record on success,
      unchanged on failure. */
  function Apply(poll: AccountView, call: Call): AccountView
  {
    match InstructionOutcome([poll, call.signer], call.instruction, call.now)
    case Ok(p) => poll.(data := Record(p))
    case Fail(_) => poll
  }

  function Run(poll: AccountView, calls: seq<Call>): AccountView
    decreases |calls|
  {
    if calls == [] then poll else Run(Apply(poll, calls[0]), calls[1..])
  }

  /** The ballot one invocation adds, if it is a vote that succeeds. */
  function BallotOf(poll: AccountView, call: Call): seq<Ballot>
  {
    match DecodeInstruction(call.instruction)
    case Some(Vote(optionIndex)) =>
      if InstructionOutcome([poll, call.signer], call.instruction, call.now).Ok?
      then [Ballot(call.signer.key, optionIndex)] else []
    case _ => []
  }

  /** Every vote accepted over a sequence of invocations, in order. */
  function Accepted(poll: AccountView, calls: seq<Call>): seq<Ballot>
    decreases |calls|
  {
    if calls == [] then [] else BallotOf(poll, calls[0]) + Accepted(Apply(poll, calls[0]), calls[1..])
  }

  /** Number of ballots for one option. */
  function Tally(ballots: seq<Ballot>, option: nat): nat
  {
    if ballots == [] then 0
    else (if ballots[0].option == option then 1 else 0) + Tally(ballots[1..], option)
  }

  function VotersOf(ballots: seq<Ballot>): seq<Pubkey>
  {
    if ballots == [] then [] else [ballots[0].voter] + VotersOf(ballots[1..])
  }

  predicate IsCreate(call: Call)
  {
    DecodeInstruction(call.instruction).Some? && DecodeInstruction(call.instruction).value.CreatePoll?
  }

  predicate NoCreate(calls: seq<Call>)
  {
    forall k | 0 <= k < |calls| :: !IsCreate(calls[k])
  }

  lemma {:induction false} TallyAppend(a: seq<Ballot>, b: seq<Ballot>, option: nat)
    ensures Tally(a + b, option) == Tally(a, option) + Tally(b, option)
  {
    if a != [] {
      assert (a + b)[1..] == a[1..] + b;
      TallyAppend(a[1..], b, option);
    } else {
      assert a + b == b;
    }
  }

  lemma {:induction false} VotersOfAppend(a: seq<Ballot>, b: seq<Ballot>)
    ensures VotersOf(a + b) == VotersOf(a) + VotersOf(b)
  {
    if a != [] {
      assert (a + b)[1..] == a[1..] + b;
      VotersOfAppend(a[1..], b);
    } else {
      assert a + b == b;
    }
  }

  /** One invocation that is not a create, on a consistent record: the record
      stays consistent, its fixed fields stay, its counters and voters grow by
      exactly the ballot the invocation adds, and a closed poll is left as it
      is. */
  lemma {:induction false} StepWithoutCreate(poll: AccountView, call: Call)
    requires poll.data.Record? && Consistent(poll.data.poll) && !IsCreate(call)
    ensures Apply(poll, call).data.Record?
    ensures var p, q, ballot := poll.data.poll, Apply(poll, call).data.poll, BallotOf(poll, call);
      Consistent(q) &&
      q.creator == p.creator && q.question == p.question && q.options == p.options &&
      q.startTime == p.startTime && q.endTime == p.endTime &&
      q.voters == p.voters + VotersOf(ballot) &&
      (forall i | 0 <= i < |p.options| :: q.voteCounts[i] == p.voteCounts[i] + Tally(ballot, i)) &&
      (p.isClosed ==> Apply(poll, call) == poll && ballot == [])
  {
    var accounts := [poll, call.signer];
    var p := poll.data.poll;
    InstructionKeepsConsistency(accounts, call.instruction, call.now);
    match DecodeInstruction(call.instruction)
    case None =>
    case Some(Vote(optionIndex)) =>
      VoteSucceedsExactly(accounts, optionIndex, call.now);
      var ballot := BallotOf(poll, call);
      if VoteOutcome(accounts, optionIndex, call.now).Ok? {
        assert ballot == [Ballot(call.signer.key, optionIndex)];
        assert VotersOf(ballot) == [call.signer.key];
        forall i | 0 <= i < |p.options|
          ensures Apply(poll, call).data.poll.voteCounts[i] == p.voteCounts[i] + Tally(ballot, i)
        {
          assert Tally(ballot, i) == if i == optionIndex then 1 else 0;
        }
      }
    case Some(ClosePoll) =>
  }

  /** Over any run of votes and closes from a consistent record: the fixed
      fields never change, the voters are the old voters followed by the
      accepted ballots' keys, every counter is its old value plus the number of
      accepted ballots for its option (so counters only grow), and a closed
      poll stays closed. */
  lemma {:induction false} RunTally(poll: AccountView, calls: seq<Call>)
    requires poll.data.Record? && Consistent(poll.data.poll) && NoCreate(calls)
    ensures Run(poll, calls).data.Record?
    ensures var p, q, ballots := poll.data.poll, Run(poll, calls).data.poll, Accepted(poll, calls);
      Consistent(q) &&
      q.creator == p.creator && q.question == p.question && q.options == p.options &&
      q.startTime == p.startTime && q.endTime == p.endTime &&
      q.voters == p.voters + VotersOf(ballots) &&
      (forall i | 0 <= i < |p.options| :: q.voteCounts[i] == p.voteCounts[i] + Tally(ballots, i)) &&
      (p.isClosed ==> q.isClosed)
    decreases |calls|
  {
    if calls != [] {
      var next := Apply(poll, calls[0]);
      StepWithoutCreate(poll, calls[0]);
      assert NoCreate(calls[1..]) by {
        forall k | 0 <= k < |calls[1..]| ensures !IsCreate(calls[1..][k]) {
          assert calls[1..][k] == calls[k + 1];
        }
      }
      RunTally(next, calls[1..]);
      var first, rest := BallotOf(poll, calls[0]), Accepted(next, calls[1..]);
      VotersOfAppend(first, rest);
      forall i | 0 <= i < |poll.data.poll.options|
        ensures Run(poll, calls).data.poll.voteCounts[i] == poll.data.poll.voteCounts[i] + Tally(first + rest, i)
      {
        TallyAppend(first, rest, i);
      }
    }
  }

  /** Starting from a record that a create has just written, the counters are
      exactly the tally of the accepted ballots and the voters exactly their
      keys, in order. */
  lemma {:induction false} TallyFromCreate(poll: AccountView, calls: seq<Call>)
    requires poll.data.Record? && NoCreate(calls)
    requires var p := poll.data.poll; p == NewPoll(p.creator, p.question, p.options, p.startTime, p.endTime)
    ensures Run(poll, calls).data.Record?
    ensures var p, q, ballots := poll.data.poll, Run(poll, calls).data.poll, Accepted(poll, calls);
      q.voters == VotersOf(ballots) &&
      |q.voteCounts| == |p.options| &&
      (forall i | 0 <= i < |p.options| :: q.voteCounts[i] == Tally(ballots, i))
  {
    var p := poll.data.poll;
    NewPollConsistent(p.creator, p.question, p.options, p.startTime, p.endTime);
    RunTally(poll, calls);
  }

  /** A closed poll is frozen, whether or not its record is consistent: no
      sequence of votes and closes changes it or accepts a ballot. */
  lemma {:induction false} ClosedPollIsFrozen(poll: AccountView, calls: seq<Call>)
    requires poll.data.Record? && poll.data.poll.isClosed && NoCreate(calls)
    ensures Run(poll, calls) == poll && Accepted(poll, calls) == []
    decreases |calls|
  {
    if calls != [] {
      assert !IsCreate(calls[0]);
      if DecodeInstruction(calls[0].instruction).Some? {
        ClosedStaysClosed([poll, calls[0].signer], calls[0].instruction, calls[0].now);
      }
      assert NoCreate(calls[1..]) by {
        forall k | 0 <= k < |calls[1..]| ensures !IsCreate(calls[1..][k]) {
          assert calls[1..][k] == calls[k + 1];
        }
      }
      ClosedPollIsFrozen(poll, calls[1..]);
    }
  }

  /** Any sequence of invocations, creates included, keeps a poll account
      that holds a record holding a consistent one. */
  lemma {:induction false} RunKeepsConsistency(poll: AccountView, calls: seq<Call>)
    requires poll.data.Record? ==> Consistent(poll.data.poll)
    ensures Run(poll, calls).data.Record? ==> Consistent(Run(poll, calls).data.poll)
    decreases |calls|
  {
    if calls != [] {
      InstructionKeepsConsistency([poll, calls[0].signer], calls[0].instruction, calls[0].now);
      RunKeepsConsistency(Apply(poll, calls[0]), calls[1..]);
    }
  }
}
