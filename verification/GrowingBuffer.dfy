/** Reading a variable-sized system structure: ask, enlarge the buffer as told, ask again, four times at most. */
module GrowingBuffer {
  import opened Outcomes

  const U32_MAX: nat := 0xFFFF_FFFF
  const ATTEMPTS: nat := 4
  const WORD: nat := 8

  /** The answer of the system call to one query. */
  datatype Answer = Complete(count: nat) | Resize(bytes: nat) | Failed(message: string)

  datatype ReadError = QueryFailed(message: string) | KeptChanging

  /** Words needed for some bytes. */
  function WordsFor(bytes: nat): (words: nat)
    ensures words * WORD >= bytes && words * WORD < bytes + WORD
  {
    (bytes + WORD - 1) / WORD
  }

  /** A request the loop follows: more than there is, and still a 32-bit capacity after rounding up. */
  predicate Acceptable(bytes: nat, capacity: nat) {
    bytes > capacity && bytes <= U32_MAX - 7
  }

  /** The next capacity that an answer leads to. */
  predicate Leads(answer: Answer, capacity: nat, next: nat) {
    answer.Resize? && Acceptable(answer.bytes, capacity) && next == WordsFor(answer.bytes) * WORD
  }

  /** The queries follow each other: each but the last was answered by an acceptable larger size. */
  ghost predicate Follows(capacities: seq<nat>, answers: (nat, nat) -> Answer) {
    && (capacities != [] ==> capacities[0] == 0)
    && forall n: nat :: n < |capacities| - 1 ==> Leads(answers(n, capacities[n]), capacities[n], capacities[n + 1])
  }

  /**
   * `answers(n, capacity)` is what query `n` says of a buffer of that many bytes; `capacities` are the sizes that
   * were tried. Sizes strictly grow and fit 32 bits; success hands back the buffer that the last query filled.
   */
  method ReadBuffer(answers: (nat, nat) -> Answer) returns (r: Result<(nat, nat), ReadError>, capacities: seq<nat>)
    ensures 1 <= |capacities| <= ATTEMPTS && Follows(capacities, answers)
    ensures forall n :: 0 <= n < |capacities| ==> capacities[n] <= U32_MAX
    ensures forall m, n :: 0 <= m < n < |capacities| ==> capacities[m] < capacities[n]
    ensures var last := answers(|capacities| - 1, capacities[|capacities| - 1]);
            match r
            case Ok((words, count)) => last == Complete(count) && words * WORD == capacities[|capacities| - 1]
            case Err(QueryFailed(message)) => last == Answer.Failed(message)
            case Err(KeptChanging) => last.Resize? && (|capacities| == ATTEMPTS || !Acceptable(last.bytes, capacities[|capacities| - 1]))
  {
    var words := 0;
    capacities := [];
    for n := 0 to ATTEMPTS
      invariant |capacities| == n && Follows(capacities, answers)
      invariant words * WORD <= U32_MAX && (n == 0 ==> words == 0)
      invariant forall m :: 0 <= m < n ==> capacities[m] < words * WORD
      invariant forall m, k :: 0 <= m < k < n ==> capacities[m] < capacities[k]
      invariant n > 0 ==> Leads(answers(n - 1, capacities[n - 1]), capacities[n - 1], words * WORD)
    {
      var capacity := words * WORD;
      capacities := capacities + [capacity];
      match answers(n, capacity)
      case Complete(count) =>
        return Ok((words, count)), capacities;
      case Failed(message) =>
        return Err(QueryFailed(message)), capacities;
      case Resize(bytes) =>
        if !(bytes > capacity && bytes <= U32_MAX - 7) {
          return Err(KeptChanging), capacities;
        }
        words := WordsFor(bytes);
    }
    return Err(KeptChanging), capacities;
  }
}
