# On-chain poll program, modelled in Dafny

The program keeps one poll per account: a creator, a question, a list of
options with one vote counter each, a voting window, a closed flag and the
list of keys that have voted. It accepts three instructions. Every one
addresses the poll account first and a signing account second.

- **CreatePoll** writes a fresh record: every counter is zero, the poll is
  open and no one has voted.
- **Vote** runs seven checks in a fixed order: signer, decode, closed, time
  window, double vote, option index and counter overflow. It then raises one
  counter, appends the voter and writes the record back.
- **ClosePoll** checks signer, decode, creator, already closed and end time,
  then sets the closed flag and writes the record back.

The model has six parts:

- `types.dfy`: Rust's `u32`/`u64`, 32-byte keys, the `ProgramError`
  variants the program returns, and `Failure`. A `Failure` is either a
  returned error or a panic from an out-of-bounds index.
- `poll.dfy`: the `Poll` record and the account contents (`Record(poll)`, or
  `Unreadable` when the bytes do not decode). It also gives the length of a
  record's Borsh encoding, with text counted in UTF-8 bytes, and the record
  invariant `Consistent`: one counter per option, no key listed twice, and
  the counters summing to the number of voters.
- `instruction.dfy` and `handlers.dfy`: the instructions, plus each handler
  written as a function of the accounts it receives. The function returns
  either the record written to account 0 or the failure.
- `processor.dfy`: the imperative handlers over `Account` objects. Vote and
  Close load the poll into a local record, check and mutate it, and write it
  back; Create builds a fresh record and writes it. Each is proved to return what the matching function says, and to
  leave account 0 unchanged on every failure.
- `properties.dfy` and `scenarios.dfy`: the properties below, and the
  repository's three unit tests replayed on the model.
- `trailing_bytes.dfy`: the record read back as the code reads it, where
  unused bytes after the record make decoding fail. See "## Findings".

The clock (`get_current_time`) is a parameter `now`. The signer flag and the
key of the second account are inputs. A list of fewer than two accounts makes
the handler's indexing panic.

Behaviour of the code that the model keeps, though a reader might expect otherwise:

- Errors are the code's `ProgramError` values. Closed poll, outside the
  window, already closed and still active all return `InvalidArgument`.
  A double vote returns `Custom(0)`, a bad option `InvalidInstructionData`,
  an overflow `Custom(1)`, a non-creator close `IllegalOwner` and a corrupt
  record `InvalidAccountData`.
- Create accepts an empty option list and any pair of times.
- Create overwrites whatever the account holds, even a closed poll. So a
  closed poll stays closed under Vote and Close only (`ClosedStaysClosed`,
  `ClosedPollIsFrozen`), not under every instruction.

## Model

| member | source | states |
|---|---|---|
| `Processor.ProcessInstruction` | src/main.rs:65-82 | the result is that of the handler the decoded instruction selects; bytes that do not decode give `InvalidInstructionData`; account 0 holds the written record on success and is unchanged on any failure |
| `Processor.ProcessCreatePoll` | src/main.rs:85-120 | panics on fewer than two accounts, rejects a non-signer, otherwise writes the fresh record if it fits; account 0 unchanged on failure |
| `Processor.ProcessVote` | src/main.rs:123-180 | performs the seven vote checks in source order, then the increment, append and write-back, exactly as `Handlers.VoteOutcome`; account 0 unchanged on failure |
| `Processor.ProcessClosePoll` | src/main.rs:183-226 | performs the close checks in source order, then sets the flag and writes back, exactly as `Handlers.ClosePollOutcome`; account 0 unchanged on failure |
| `Processor.Contains` | src/main.rs:154 | the linear scan finds the key exactly when it is among the voters |
| `Processor.Account.Serialize` | src/main.rs:115-116 | the write succeeds exactly when the Borsh encoding fits the buffer, and otherwise returns `AccountDataTooSmall` |
| `PollRecord.NewPollConsistent` | src/main.rs:102-113 | the record create builds is consistent: one zero counter per option, no voters, sum zero |
| `PollRecord.SumIncrement` | src/main.rs:166-169 | raising one counter by one raises the total of the counters by exactly one |
| `Properties.MalformedInstructionRejected` | src/main.rs:70-71 | undecodable instruction bytes give `InvalidInstructionData` whatever accounts are passed, so no handler runs |
| `Properties.SignatureCheckedFirst` | src/main.rs:97-194 | for each of the three instructions (checks at lines 97-100, 132-135 and 191-194) an unsigned second account gives `MissingRequiredSignature`, whatever the poll account holds |
| `Properties.ShortAccountListPanics` | src/main.rs:94-189 | a decodable instruction with fewer than two accounts panics, in each handler's indexing of the account list (lines 94-95, 129-130 and 188-189) |
| `Properties.CreateWritesFreshPoll` | src/main.rs:97-116 | a signed create succeeds exactly when the record fits, with no condition on the times or options; it fails otherwise only with `AccountDataTooSmall`; on success it stores the signer as creator, the given question, options and times, zero counters, open, no voters, and the record is consistent |
| `Properties.VoteChecksInOrder` | src/main.rs:132-169 | signer, decode, closed, window (inclusive at both ends), double vote, option index and overflow are checked in that order, and the first failing check decides the error |
| `Properties.VoteSucceedsExactly` | src/main.rs:141-176 | a vote succeeds if and only if every check passes and the record, 32 bytes longer, still fits; then only the chosen counter changes, by exactly one, the voter is appended at the end, and every other field is unchanged |
| `Properties.RepeatVoteRejected` | src/main.rs:153-157 | after a key's vote is stored, the same key voting again for any option gets `Custom(0)` |
| `Properties.ConsistentVoteNeverPanics` | src/main.rs:159-167 | on a consistent record the counter index never goes out of bounds |
| `Properties.VoteKeepsConsistency` | src/main.rs:153-172 | a successful vote on a consistent record leaves it consistent: counters parallel to options, voters distinct, sum equal to the number of voters |
| `Properties.CloseChecksInOrder` | src/main.rs:191-216 | signer, decode, creator (`IllegalOwner`), already closed and end time not reached (both `InvalidArgument`) are checked in that order |
| `Properties.CloseSucceedsExactly` | src/main.rs:200-222 | on a record that fits its buffer, close succeeds if and only if the creator signs, the poll is open and the end time is reached; it only sets the flag to true and never fails for lack of space |
| `Properties.ClosedStaysClosed` | src/main.rs:141-209 | on a closed poll every vote (check at lines 141-144) and every close (creator check at 201-204, closed check at 206-209) fails, so only create can change the record |
| `Properties.InstructionKeepsConsistency` | src/main.rs:73-81 | every successful instruction writes a consistent record if the account held one |
| `Properties.StepWithoutCreate` | src/main.rs:166-172 | one vote or close on a consistent record keeps it consistent and keeps its fixed fields; counters and voters grow by exactly the ballot accepted; a closed poll is unchanged |
| `Properties.RunTally` | src/main.rs:166-172 | over any run of votes and closes from a consistent record, every counter equals its old value plus the number of accepted ballots for that option, so counters only grow; voters are the old voters followed by the accepted ballots' keys in order; the fixed fields never change and a closed poll stays closed |
| `Properties.TallyFromCreate` | src/main.rs:103-113 | from a freshly created record, the counters are exactly the tally of accepted ballots and the voters exactly their keys |
| `Properties.ClosedPollIsFrozen` | src/main.rs:141-209 | no run of votes and closes changes a closed poll, consistent or not, or accepts a ballot on it |
| `Properties.RunKeepsConsistency` | src/main.rs:65-82 | any run of instructions, creates included, keeps the poll account consistent |
| `Scenarios.CreatePollTest` | src/main.rs:281-316 | the unit test's create stores exactly the expected record |
| `Scenarios.CastVoteTest` | src/main.rs:319-359 | the unit test's vote gives counts `[1, 0, 0]` and voters `[voter]`, and a second vote by the same key gets `Custom(0)` |
| `Scenarios.ClosePollTest` | src/main.rs:362-394 | the unit test's close by the creator after the end time succeeds and closes the poll |
| `TrailingBytes.VoteNeverSucceedsAsWritten` | src/main.rs:138-176 | with the record read back by `try_from_slice`, which needs the record to fill the buffer, no vote ever succeeds: the record one key longer no longer fits |
| `TrailingBytes.CastVoteTestAsWritten` | src/main.rs:345-349 | with that reading, the unit test's first vote fails with `InvalidAccountData` |
| `TrailingBytes.CloseAsWritten` | src/main.rs:196-222 | with that reading, a signed close on a record that fills its buffer does what the corrected handler does, and on a record with unused bytes after it fails with `InvalidAccountData` |
| `TrailingBytes.ClosePollTestAsWritten` | src/main.rs:385-389 | with that reading, the unit test's close fails with `InvalidAccountData` |

## Findings

| source | as written | input that shows it | evidently intended | confidence | as-written member | corrected member |
|---|---|---|---|---|---|---|
| src/main.rs:138 | the poll is read with `Poll::try_from_slice` over the whole buffer, which fails unless the record fills the buffer exactly; a successful vote then writes a record 32 bytes longer, which cannot fit, so no vote ever succeeds; a close decodes only a record that fills its buffer exactly (line 197), and the unit tests' own read-backs (lines 307, 351 and 392) use the same call | the unit test's poll (about 140 bytes) in its 1024-byte buffer: the vote returns `InvalidAccountData`; the close test's record (about 175 bytes) in its 1024-byte buffer: the close returns `InvalidAccountData` | read the record from the front of the buffer and ignore the unused bytes after it, so that a vote on an open poll in its window succeeds | medium, not executed; it rests on Borsh's documented `try_from_slice` behaviour | `TrailingBytes.VoteNeverSucceedsAsWritten` | `Properties.VoteSucceedsExactly` |

## Left out

- Borsh encoding and decoding of records and instructions are not modelled.
  Decoding either yields a value or fails, and writing succeeds exactly when
  the encoded length fits the buffer. So no round-trip property of the
  encoding is stated.
- The handlers of `Processor` and `Handlers` read the record and ignore the
  bytes after it in the buffer. The code as written reads it with Borsh's
  `try_from_slice`, which fails on trailing bytes. With that reading no vote
  succeeds. A vote that passes the signer check on a record with unused
  bytes after it fails with `InvalidAccountData`. A vote on a record that
  fills its buffer and passes every check fails with `AccountDataTooSmall`.
  The earlier checks keep their own errors. A close
  then decodes only a record that fills its buffer exactly, so the unit
  test's close, a record of about 175 bytes in a 1024-byte buffer, fails with
  `InvalidAccountData`; the tests' own read-backs at src/main.rs:307, 351 and
  392 fail the same way. The `TrailingBytes` module models that reading and
  proves it; see "## Findings".
- Processor.Account.Serialize: a failed write leaves the buffer unchanged.
  Borsh writing into a short slice may store a prefix first; that depends on
  Borsh internals.
- The length of the Borsh encoding ignores the failure Borsh reports for a
  string or vector longer than `u32::MAX`.
- The `entrypoint!` macro, `AccountInfo` borrowing through `RefCell`, the
  unused `program_id` and `msg!` logging are left out. They are host plumbing
  and do not change what a call does.
- The hard-coded clock value becomes the parameter `now`. The scenarios use
  that value, 1_620_000_000.
- Keys are 32 opaque bytes, compared only for equality.
- The unit tests' question and option texts enter the scenarios only through
  their lengths. Those lengths decide whether the record fits.
