/** Reading the poll back with `Poll::try_from_slice` over the whole data
    buffer (src/main.rs:138 and 197). Borsh's `try_from_slice` fails unless
    decoding consumes every byte, so a buffer holding a record followed by
    unused bytes does not decode. The rest of the model reads the record and
    ignores the bytes after it; this module keeps the code as written, and
    shows that a vote can then never succeed and that a close succeeds only
    on a record that fills its buffer. */
module TrailingBytes {
  import opened Types
  import opened PollRecord
  import opened Handlers
  import Scenarios

  /** Decoding as written: the record must fill the buffer exactly. */
  function DecodeExact(data: AccountData, capacity: nat): Option<Poll>
  {
    match data
    case Record(p) => if EncodedLen(p) == capacity then Some(p) else None
    case Unreadable => None
  }

  /** The vote handler with the decoding as written. */
  function VoteOutcomeAsWritten(accounts: seq<AccountView>, optionIndex: u32, now: u64): Result<Poll>
  {
    if |accounts| < 2 then Fail(Panic)
    else if !accounts[1].isSigner then Fail(Error(MissingRequiredSignature))
    else match DecodeExact(accounts[0].data, accounts[0].capacity)
      case None => Fail(Error(InvalidAccountData))
      case Some(p) =>
        match CastVote(p, accounts[1].key, optionIndex, now)
        case Fail(f) => Fail(f)
        case Ok(q) => Store(q, accounts[0].capacity)
  }

  /** As written, no vote succeeds: decoding needs the record to fill the
      buffer, and writing back the record one key longer needs 32 more bytes. */
  lemma VoteNeverSucceedsAsWritten(accounts: seq<AccountView>, optionIndex: u32, now: u64)
    ensures !VoteOutcomeAsWritten(accounts, optionIndex, now).Ok?
  {
  }

  /** The close handler with the decoding as written. */
  function ClosePollOutcomeAsWritten(accounts: seq<AccountView>, now: u64): Result<Poll>
  {
    if |accounts| < 2 then Fail(Panic)
    else if !accounts[1].isSigner then Fail(Error(MissingRequiredSignature))
    else match DecodeExact(accounts[0].data, accounts[0].capacity)
      case None => Fail(Error(InvalidAccountData))
      case Some(p) =>
        match Close(p, accounts[1].key, now)
        case Fail(f) => Fail(f)
        case Ok(q) => Store(q, accounts[0].capacity)
  }

  /** As written, a close on a record that fills its buffer does what the
      corrected handler does; on a record with unused bytes after it, it
      fails with `InvalidAccountData`. */
  lemma CloseAsWritten(accounts: seq<AccountView>, now: u64)
    requires |accounts| >= 2 && accounts[1].isSigner && accounts[0].data.Record?
    ensures EncodedLen(accounts[0].data.poll) == accounts[0].capacity ==>
      ClosePollOutcomeAsWritten(accounts, now) == Handlers.ClosePollOutcome(accounts, now)
    ensures EncodedLen(accounts[0].data.poll) != accounts[0].capacity ==>
      ClosePollOutcomeAsWritten(accounts, now) == Fail(Error(InvalidAccountData))
  {
  }

  /** As written, the vote of `test_cast_vote` (src/main.rs:345-349) is
      rejected as unreadable data: the test's record is far shorter than its
      1024-byte buffer. */
  lemma CastVoteTestAsWritten(question: string, options: seq<string>)
    requires Scenarios.TestTexts(question, options)
    ensures var poll := AccountView(Scenarios.TestKey(2), false, 1024,
                          Record(Poll(Scenarios.TestKey(1), question, options, [0, 0, 0], 1_619_999_000, 1_620_001_000, false, [])));
      var voter := AccountView(Scenarios.TestKey(3), true, 0, Unreadable);
      VoteOutcomeAsWritten([poll, voter], 0, Scenarios.NOW) == Fail(Error(InvalidAccountData))
  {
    Scenarios.TestPollFits(question, options, [0, 0, 0], 1_619_999_000, 1_620_001_000, []);
  }

  /** As written, the close of `test_close_poll` (src/main.rs:385-389) is
      rejected as unreadable data as well: the test's record is far shorter
      than its 1024-byte buffer. */
  lemma ClosePollTestAsWritten(question: string, options: seq<string>)
    requires Scenarios.TestTexts(question, options)
    ensures var poll := AccountView(Scenarios.TestKey(2), false, 1024,
                          Record(Poll(Scenarios.TestKey(1), question, options, [3, 2, 1], 1_619_900_000, 1_619_999_000, false, [Scenarios.TestKey(3)])));
      var creator := AccountView(Scenarios.TestKey(1), true, 0, Unreadable);
      ClosePollOutcomeAsWritten([poll, creator], Scenarios.NOW) == Fail(Error(InvalidAccountData))
  {
    Scenarios.TestPollFits(question, options, [3, 2, 1], 1_619_900_000, 1_619_999_000, [Scenarios.TestKey(3)]);
  }
}
