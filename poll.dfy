/** The poll record stored in an account, the account's contents as the
    program sees them, and the facts about the record every handler keeps. */
module PollRecord {
  import opened Types

  /** One poll. `voteCounts` is parallel to `options`; `voters` lists every
      key that has voted, in the order the votes arrived. */
  datatype Poll = Poll(
    creator: Pubkey,
    question: string,
    options: seq<string>,
    voteCounts: seq<u64>,
    startTime: u64,
    endTime: u64,
    isClosed: bool,
    voters: seq<Pubkey>)

  /** The data buffer of an account, as far as decoding goes: it either holds
      a record that decodes to a poll or bytes that do not decode. */
  datatype AccountData = Record(poll: Poll) | Unreadable

  function Decode(data: AccountData): Option<Poll>
  {
    match data
    case Record(p) => Some(p)
    case Unreadable => None
  }

  /** The record a successful create writes: every counter zero, nobody has
      voted, the poll open. */
  function NewPoll(creator: Pubkey, question: string, options: seq<string>, startTime: u64, endTime: u64): Poll
  {
    Poll(creator, question, options, seq(|options|, _ => 0), startTime, endTime, false, [])
  }

  // ---- Size of the Borsh encoding, used to decide whether a write fits ----

  /** Number of bytes UTF-8 uses for one character. */
  function Utf8Width(c: char): nat
  {
    var n := c as int;
    if n < 0x80 then 1 else if n < 0x800 then 2 else if n < 0x1_0000 then 3 else 4
  }

  /** Number of bytes of the UTF-8 form of a string. */
  function Utf8Size(s: string): nat
  {
    if s == [] then 0 else Utf8Width(s[0]) + Utf8Size(s[1..])
  }

  /** Bytes of the elements of a `Vec<String>`: a 4-byte length prefix and the
      UTF-8 bytes of each string. */
  function OptionsSize(options: seq<string>): nat
  {
    if options == [] then 0 else 4 + Utf8Size(options[0]) + OptionsSize(options[1..])
  }

  /** Length of a poll's Borsh encoding: a 32-byte key, length-prefixed
      strings and vectors (4-byte prefixes), 8-byte integers, a 1-byte bool. */
  function EncodedLen(p: Poll): nat
  {
    32
    + 4 + Utf8Size(p.question)
    + 4 + OptionsSize(p.options)
    + 4 + 8 * |p.voteCounts|
    + 8 + 8 + 1
    + 4 + 32 * |p.voters|
  }

  /** A character takes at most four UTF-8 bytes. */
  lemma {:induction false} Utf8SizeBound(s: string)
    ensures Utf8Size(s) <= 4 * |s|
  {
    if s != [] {
      Utf8SizeBound(s[1..]);
    }
  }

  /** Options of at most `width` characters take at most `4 + 4 * width`
      bytes each. */
  lemma {:induction false} OptionsSizeBound(options: seq<string>, width: nat)
    requires forall i | 0 <= i < |options| :: |options[i]| <= width
    ensures OptionsSize(options) <= (4 + 4 * width) * |options|
  {
    if options != [] {
      var each := 4 + 4 * width;
      Utf8SizeBound(options[0]);
      OptionsSizeBound(options[1..], width);
      assert each * |options| == each * |options[1..]| + each;
    }
  }

  // ---- The record invariant ----

  /** Total number of votes the counters hold. */
  function Sum(counts: seq<u64>): nat
  {
    if counts == [] then 0 else counts[0] + Sum(counts[1..])
  }

  predicate Distinct(keys: seq<Pubkey>)
  {
    forall i, j | 0 <= i < j < |keys| :: keys[i] != keys[j]
  }

  /** What create establishes and vote and close keep: one counter per option,
      nobody listed twice, and exactly one counted vote per listed voter. */
  predicate Consistent(p: Poll)
  {
    |p.voteCounts| == |p.options| && Distinct(p.voters) && Sum(p.voteCounts) == |p.voters|
  }

  lemma {:induction false} SumOfZeros(n: nat)
    ensures Sum(seq(n, _ => 0)) == 0
  {
    if n > 0 {
      assert seq(n, _ => 0)[1..] == seq(n - 1, _ => 0);
      SumOfZeros(n - 1);
    }
  }

  /** Raising one counter by one raises the total by one. */
  lemma {:induction false} SumIncrement(counts: seq<u64>, i: nat)
    requires i < |counts| && counts[i] < U64_MAX
    ensures Sum(counts[i := counts[i] + 1]) == Sum(counts) + 1
  {
    if i > 0 {
      assert counts[i := counts[i] + 1][1..] == counts[1..][i - 1 := counts[i] + 1];
      SumIncrement(counts[1..], i - 1);
    }
  }

  lemma {:induction false} NewPollConsistent(creator: Pubkey, question: string, options: seq<string>, startTime: u64, endTime: u64)
    ensures Consistent(NewPoll(creator, question, options, startTime, endTime))
  {
    SumOfZeros(|options|);
  }
}
