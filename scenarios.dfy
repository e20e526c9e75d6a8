/** The repository's unit tests, replayed on the handler semantics with the
    clock at the value the program hard-codes. The tests' question
    ("Best programming language?", 26 characters) and options ("Rust", "Go",
    "JavaScript") enter only through their lengths, which decide whether the
    record fits the tests' 1024-byte buffer. */
module Scenarios {
  import opened Types
  import opened PollRecord
  import opened Handlers

  /** The clock value the program reads. */
  const NOW: u64 := 1_620_000_000

  /** The tests' keys: `seed` in the first byte, zeros after. */
  function TestKey(seed: bv8): Pubkey
  {
    seq(32, i => if i == 0 then seed else 0)
  }

  /** Texts as short as the tests' ones. */
  predicate TestTexts(question: string, options: seq<string>)
  {
    |question| <= 26 && |options| == 3 && forall i | 0 <= i < 3 :: |options[i]| <= 10
  }

  /** The tests' poll, with at most one voter, fits a 1024-byte buffer with
      room for one more key. */
  lemma TestPollFits(question: string, options: seq<string>, counts: seq<u64>, startTime: u64, endTime: u64, voters: seq<Pubkey>)
    requires TestTexts(question, options) && |counts| == 3 && |voters| <= 1
    ensures EncodedLen(Poll(TestKey(1), question, options, counts, startTime, endTime, false, voters)) + 32 <= 1024
  {
    Utf8SizeBound(question);
    OptionsSizeBound(options, 10);
  }

  /** `test_create_poll`: the creator's signed create stores the poll with
      three zero counters, open, and nobody having voted. */
  lemma CreatePollTest(question: string, options: seq<string>)
    requires TestTexts(question, options)
    ensures var poll := AccountView(TestKey(2), false, 1024, Unreadable);
      var creator := AccountView(TestKey(1), true, 0, Unreadable);
      var out := CreatePollOutcome([poll, creator], question, options, 1_619_999_000, 1_620_001_000);
      out == Ok(Poll(TestKey(1), question, options, [0, 0, 0], 1_619_999_000, 1_620_001_000, false, []))
  {
    TestPollFits(question, options, [0, 0, 0], 1_619_999_000, 1_620_001_000, []);
    assert seq(|options|, _ => 0) == [0, 0, 0];
  }

  /** `test_cast_vote`: a first vote for option 0 stores count 1 and the
      voter; the same voter voting again is refused. */
  lemma CastVoteTest(question: string, options: seq<string>)
    requires TestTexts(question, options)
    ensures var poll := AccountView(TestKey(2), false, 1024,
                          Record(Poll(TestKey(1), question, options, [0, 0, 0], 1_619_999_000, 1_620_001_000, false, [])));
      var voter := AccountView(TestKey(3), true, 0, Unreadable);
      var out := VoteOutcome([poll, voter], 0, NOW);
      out.Ok? && out.value.voteCounts == [1, 0, 0] && out.value.voters == [TestKey(3)] &&
      VoteOutcome([poll.(data := Record(out.value)), voter], 0, NOW) == Fail(Error(Custom(DOUBLE_VOTE)))
  {
    TestPollFits(question, options, [0, 0, 0], 1_619_999_000, 1_620_001_000, []);
  }

  /** `test_close_poll`: the creator closes a poll whose end time has passed. */
  lemma ClosePollTest(question: string, options: seq<string>)
    requires TestTexts(question, options)
    ensures var poll := AccountView(TestKey(2), false, 1024,
                          Record(Poll(TestKey(1), question, options, [3, 2, 1], 1_619_900_000, 1_619_999_000, false, [TestKey(3)])));
      var creator := AccountView(TestKey(1), true, 0, Unreadable);
      var out := ClosePollOutcome([poll, creator], NOW);
      out.Ok? && out.value.isClosed
  {
    TestPollFits(question, options, [3, 2, 1], 1_619_900_000, 1_619_999_000, [TestKey(3)]);
  }
}
