/** The polling and batching loops of startEventListener in the event indexer: which block ranges one listener asks for
    over all its polls, and which logs it therefore handles. */
module BlockRanges {
  import opened Basics
  import opened Wrappers
  import EventStore

  type Log = EventStore.Log

  /** The blocks from lo to hi. */
  datatype Range = Range(lo: nat, hi: nat)

  /** The bounds sent to the node: int64(from) and int64(to). */
  datatype Query = Query(fromBlock: int, toBlock: int)

  function QueryFor(r: Range): Query {
    Query(Signed64(r.lo), Signed64(r.hi))
  }

  /** A range asked for, and the logs the node answered; None where the query failed. */
  datatype Asked = Asked(range: Range, logs: Option<seq<Log>>)

  /** One poll: the height the node reports, None on an error, and its answers to the queries of this poll. */
  datatype Poll = Poll(latest: Option<nat>, fetch: Query -> Option<seq<Log>>)

  datatype State = State(lastBlock: nat, asked: seq<Asked>)

  /** The batches of one poll. */
  function Batches(from: nat, upto: nat, size: nat, fetch: Query -> Option<seq<Log>>): seq<Asked>
    requires size > 0
    decreases upto + 1 - from
  {
    if from > upto then []
    else
      var range := Range(from, Min(from + size - 1, upto));
      [Asked(range, fetch(QueryFor(range)))] + Batches(from + size, upto, size, fetch)
  }

  lemma BatchesStep(from: nat, upto: nat, size: nat, fetch: Query -> Option<seq<Log>>)
    requires size > 0 && from <= upto
    ensures var range := Range(from, Min(from + size - 1, upto));
            Batches(from, upto, size, fetch)
            == [Asked(range, fetch(QueryFor(range)))] + Batches(from + size, upto, size, fetch)
  {
  }

  function AfterPoll(s: State, poll: Poll, size: nat): State
    requires size > 0
  {
    if poll.latest.None? || poll.latest.value <= s.lastBlock then s
    else State(poll.latest.value, s.asked + Batches(s.lastBlock + 1, poll.latest.value, size, poll.fetch))
  }

  function AfterPolls(s: State, polls: seq<Poll>, size: nat): State
    requires size > 0
    decreases |polls|
  {
    if polls == [] then s else AfterPolls(AfterPoll(s, polls[0], size), polls[1..], size)
  }

  /** Ranges that lie end to end from just after `start` up to `last`, none empty, none longer than a batch. */
  ghost predicate EndToEnd(start: nat, asked: seq<Asked>, last: nat, size: nat)
    decreases |asked|
  {
    if asked == [] then start == last
    else
      var r := asked[0].range;
      r.lo == start + 1 && r.lo <= r.hi < r.lo + size && EndToEnd(r.hi, asked[1..], last, size)
  }

  lemma {:induction false} EndToEndAppend(start: nat, xs: seq<Asked>, middle: nat, ys: seq<Asked>, last: nat, size: nat)
    requires EndToEnd(start, xs, middle, size) && EndToEnd(middle, ys, last, size)
    ensures EndToEnd(start, xs + ys, last, size)
    decreases |xs|
  {
    if xs == [] {
      assert xs + ys == ys;
    } else {
      assert (xs + ys)[1..] == xs[1..] + ys;
      EndToEndAppend(xs[0].range.hi, xs[1..], middle, ys, last, size);
    }
  }

  lemma {:induction false} BatchesEndToEnd(from: nat, upto: nat, size: nat, fetch: Query -> Option<seq<Log>>)
    requires size > 0 && 0 < from <= upto + 1
    ensures EndToEnd(from - 1, Batches(from, upto, size, fetch), upto, size)
    decreases upto + 1 - from
  {
    if from + size <= upto {
      BatchesEndToEnd(from + size, upto, size, fetch);
    }
  }

  /** Across all polls of a run, whatever heights the node reports and whichever queries fail, the requested ranges are
      ordered, contiguous, at most a batch long, and cover exactly the blocks after `start` up to lastBlock. */
  lemma {:induction false} RunEndToEnd(start: nat, s: State, polls: seq<Poll>, size: nat)
    requires size > 0 && EndToEnd(start, s.asked, s.lastBlock, size)
    ensures var s' := AfterPolls(s, polls, size); EndToEnd(start, s'.asked, s'.lastBlock, size)
    decreases |polls|
  {
    if polls != [] {
      var s1 := AfterPoll(s, polls[0], size);
      if s1 != s {
        BatchesEndToEnd(s.lastBlock + 1, s1.lastBlock, size, polls[0].fetch);
        EndToEndAppend(start, s.asked, s.lastBlock,
                       Batches(s.lastBlock + 1, s1.lastBlock, size, polls[0].fetch), s1.lastBlock, size);
      }
      RunEndToEnd(start, s1, polls[1..], size);
    }
  }

  predicate Holds(a: Asked, block: nat) {
    a.range.lo <= block <= a.range.hi
  }

  /** How many of the requested ranges hold a block. */
  function Times(asked: seq<Asked>, block: nat): nat {
    if asked == [] then 0 else (if Holds(asked[0], block) then 1 else 0) + Times(asked[1..], block)
  }

  lemma {:induction false} EndToEndTimes(start: nat, asked: seq<Asked>, last: nat, size: nat, block: nat)
    requires EndToEnd(start, asked, last, size)
    ensures start <= last && Times(asked, block) == if start < block <= last then 1 else 0
    decreases |asked|
  {
    if asked != [] {
      EndToEndTimes(asked[0].range.hi, asked[1..], last, size, block);
    }
  }

  lemma {:induction false} EndToEndOrdered(start: nat, asked: seq<Asked>, last: nat, size: nat, i: nat, j: nat)
    requires EndToEnd(start, asked, last, size) && i < j < |asked|
    ensures asked[i].range.hi < asked[j].range.lo
    decreases |asked|
  {
    if i == 0 {
      EndToEndStartsAfter(asked[0].range.hi, asked[1..], last, size, j - 1);
    } else {
      EndToEndOrdered(asked[0].range.hi, asked[1..], last, size, i - 1, j - 1);
    }
  }

  lemma {:induction false} EndToEndStartsAfter(start: nat, asked: seq<Asked>, last: nat, size: nat, j: nat)
    requires EndToEnd(start, asked, last, size) && j < |asked|
    ensures start < asked[j].range.lo
    decreases |asked|
  {
    if j > 0 {
      EndToEndStartsAfter(asked[0].range.hi, asked[1..], last, size, j - 1);
    }
  }

  /** Some poll reports a height of at least h. */
  ghost predicate Reached(polls: seq<Poll>, h: nat) {
    exists poll :: poll in polls && poll.latest.Some? && poll.latest.value >= h
  }

  /** The last block is the greatest of the start and the heights reported. */
  lemma {:induction false} LastBlockIsHighest(s: State, polls: seq<Poll>, size: nat, h: nat)
    requires size > 0
    ensures h <= AfterPolls(s, polls, size).lastBlock <==> h <= s.lastBlock || Reached(polls, h)
    decreases |polls|
  {
    if polls != [] {
      LastBlockIsHighest(AfterPoll(s, polls[0], size), polls[1..], size, h);
      assert polls == [polls[0]] + polls[1..];
      if polls[0].latest.Some? && polls[0].latest.value >= h {
        assert polls[0] in polls;
      }
      if poll :| poll in polls[1..] && poll.latest.Some? && poll.latest.value >= h {
        assert poll in polls;
      }
    }
  }

  /** Block coverage: a block is asked for in exactly one query of the whole run if it lies above the start and at or
      below some reported height, and in none otherwise; the queries are in order and disjoint. */
  lemma BlockCoverage(start: nat, polls: seq<Poll>, size: nat)
    requires size > 0
    ensures var s := AfterPolls(State(start, []), polls, size);
            && (forall block: nat :: Times(s.asked, block) == if start < block && Reached(polls, block) then 1 else 0)
            && (forall i, j | 0 <= i < j < |s.asked| :: s.asked[i].range.hi < s.asked[j].range.lo)
  {
    var s := AfterPolls(State(start, []), polls, size);
    RunEndToEnd(start, State(start, []), polls, size);
    forall block: nat ensures Times(s.asked, block) == if start < block && Reached(polls, block) then 1 else 0 {
      EndToEndTimes(start, s.asked, s.lastBlock, size, block);
      LastBlockIsHighest(State(start, []), polls, size, block);
    }
    forall i, j | 0 <= i < j < |s.asked| ensures s.asked[i].range.hi < s.asked[j].range.lo {
      EndToEndOrdered(start, s.asked, s.lastBlock, size, i, j);
    }
  }

  /** The query was made in a poll of the run: for a whole batch, or for what was left up to the height of the poll,
      and what came back is what the node answers to it. */
  ghost predicate MadeIn(a: Asked, poll: Poll, size: nat) {
    && poll.latest.Some? && a.range.hi <= poll.latest.value
    && (a.range.hi + 1 == a.range.lo + size || (a.range.hi == poll.latest.value && a.range.hi < a.range.lo + size))
    && a.logs == poll.fetch(Query(Signed64(a.range.lo), Signed64(a.range.hi)))
  }

  ghost predicate Made(a: Asked, polls: seq<Poll>, size: nat) {
    exists poll :: poll in polls && MadeIn(a, poll, size)
  }

  lemma {:induction false} BatchesMade(from: nat, poll: Poll, size: nat, a: Asked)
    requires size > 0 && poll.latest.Some? && a in Batches(from, poll.latest.value, size, poll.fetch)
    ensures MadeIn(a, poll, size)
    decreases poll.latest.value + 1 - from
  {
    BatchesStep(from, poll.latest.value, size, poll.fetch);
    var range := Range(from, Min(from + size - 1, poll.latest.value));
    if a != Asked(range, poll.fetch(QueryFor(range))) {
      BatchesMade(from + size, poll, size, a);
    }
  }

  /** Every query of a run is a full batch, or the rest up to the height of its poll, and is answered by the node. */
  lemma {:induction false} QueriesAreMade(s: State, polls: seq<Poll>, size: nat, a: Asked)
    requires size > 0 && a in AfterPolls(s, polls, size).asked
    ensures a in s.asked || Made(a, polls, size)
    decreases |polls|
  {
    if polls != [] {
      var s1 := AfterPoll(s, polls[0], size);
      QueriesAreMade(s1, polls[1..], size, a);
      assert polls == [polls[0]] + polls[1..];
      if a in s1.asked && a !in s.asked {
        BatchesMade(s.lastBlock + 1, polls[0], size, a);
        assert polls[0] in polls;
      } else if a !in s1.asked {
        var poll :| poll in polls[1..] && MadeIn(a, poll, size);
        assert poll in polls;
      }
    }
  }

  lemma {:induction false} LastRange(start: nat, asked: seq<Asked>, last: nat, size: nat)
    requires EndToEnd(start, asked, last, size) && asked != []
    ensures asked[|asked| - 1].range.hi == last
    ensures forall a | a in asked :: a.range.lo <= a.range.hi <= last
    decreases |asked|
  {
    var rest := asked[1..];
    assert asked == [asked[0]] + rest;
    if rest != [] {
      LastRange(asked[0].range.hi, rest, last, size);
      EndToEndTimes(asked[0].range.hi, rest, last, size, 0);
    }
  }

  /** The query sent names the blocks of the range. */
  predicate NamesRange(r: Range) {
    QueryFor(r) == Query(r.lo, r.hi)
  }

  lemma NamesRangeIff(r: Range)
    requires r.lo <= r.hi < UINT64
    ensures NamesRange(r) <==> r.hi < 0x8000_0000_0000_0000
  {
  }

  /** The conversion to int64 makes block numbers from 2^63 on negative: all queries of a run name the ranges they
      stand for if and only if lastBlock stays below 2^63, or nothing is asked. */
  lemma QueriesNameRangesIff(start: nat, polls: seq<Poll>, size: nat)
    requires size > 0 && AfterPolls(State(start, []), polls, size).lastBlock < UINT64
    ensures var s := AfterPolls(State(start, []), polls, size);
            (forall a | a in s.asked :: NamesRange(a.range))
            <==> s.asked == [] || s.lastBlock < 0x8000_0000_0000_0000
  {
    var s := AfterPolls(State(start, []), polls, size);
    RunEndToEnd(start, State(start, []), polls, size);
    if s.asked != [] {
      LastRange(start, s.asked, s.lastBlock, size);
      assert s.asked[|s.asked| - 1] in s.asked;
      forall a | a in s.asked ensures NamesRange(a.range) <==> a.range.hi < 0x8000_0000_0000_0000 {
        NamesRangeIff(a.range);
      }
    }
  }

  // Handled logs

  /** The logs handed to processEventLog, in order. */
  function Handled(asked: seq<Asked>): seq<Log> {
    if asked == [] then []
    else (match asked[0].logs case Some(logs) => logs case None => []) + Handled(asked[1..])
  }

  lemma {:induction false} HandledAppend(xs: seq<Asked>, ys: seq<Asked>)
    ensures Handled(xs + ys) == Handled(xs) + Handled(ys)
  {
    if xs == [] {
      assert xs + ys == ys;
    } else {
      assert (xs + ys)[1..] == xs[1..] + ys;
      HandledAppend(xs[1..], ys);
    }
  }

  /** The logs of a chain between two blocks. */
  function LogsBetween(chain: nat -> seq<Log>, lo: nat, hi: nat): seq<Log>
    decreases hi + 1 - lo
  {
    if lo > hi then [] else chain(lo) + LogsBetween(chain, lo + 1, hi)
  }

  lemma {:induction false} LogsSplit(chain: nat -> seq<Log>, lo: nat, middle: nat, hi: nat)
    requires lo <= middle + 1 <= hi + 1
    ensures LogsBetween(chain, lo, hi) == LogsBetween(chain, lo, middle) + LogsBetween(chain, middle + 1, hi)
    decreases hi + 1 - lo
  {
    if lo <= middle {
      LogsSplit(chain, lo + 1, middle, hi);
    }
  }

  /** Every query that succeeded has been answered with the logs of its range. */
  ghost predicate Truthful(chain: nat -> seq<Log>, asked: seq<Asked>) {
    forall a | a in asked :: a.logs.Some? ==> a.logs.value == LogsBetween(chain, a.range.lo, a.range.hi)
  }

  ghost predicate FailedRangesAreEmpty(chain: nat -> seq<Log>, asked: seq<Asked>) {
    forall a | a in asked :: a.logs.None? ==> LogsBetween(chain, a.range.lo, a.range.hi) == []
  }

  lemma {:induction false} HandledLength(chain: nat -> seq<Log>, start: nat, asked: seq<Asked>, last: nat, size: nat)
    requires EndToEnd(start, asked, last, size) && Truthful(chain, asked)
    ensures start <= last
    ensures |Handled(asked)| <= |LogsBetween(chain, start + 1, last)|
    ensures FailedRangesAreEmpty(chain, asked) ==> Handled(asked) == LogsBetween(chain, start + 1, last)
    ensures |Handled(asked)| == |LogsBetween(chain, start + 1, last)| ==> FailedRangesAreEmpty(chain, asked)
    decreases |asked|
  {
    if asked != [] {
      var a, rest := asked[0], asked[1..];
      assert a in asked && forall x | x in rest :: x in asked;
      HandledLength(chain, a.range.hi, rest, last, size);
      LogsSplit(chain, a.range.lo, a.range.hi, last);
      assert asked == [a] + rest;
    }
  }

  /** A run handles exactly the logs of the blocks it covered, each once and in order, if and only if the ranges whose
      query failed hold none; a failed range is never asked for again. */
  lemma NothingLostIffFailuresEmpty(chain: nat -> seq<Log>, start: nat, polls: seq<Poll>, size: nat)
    requires size > 0 && Truthful(chain, AfterPolls(State(start, []), polls, size).asked)
    ensures var s := AfterPolls(State(start, []), polls, size);
            Handled(s.asked) == LogsBetween(chain, start + 1, s.lastBlock) <==> FailedRangesAreEmpty(chain, s.asked)
  {
    RunEndToEnd(start, State(start, []), polls, size);
    var s := AfterPolls(State(start, []), polls, size);
    HandledLength(chain, start, s.asked, s.lastBlock, size);
  }

  /** The node answers every query of the poll with the logs of its blocks. */
  ghost predicate Answers(chain: nat -> seq<Log>, poll: Poll) {
    poll.latest.Some? ==>
      && poll.latest.value < 0x8000_0000_0000_0000
      && forall lo: nat, hi: nat | lo <= hi <= poll.latest.value ::
           poll.fetch(Query(lo, hi)) == Some(LogsBetween(chain, lo, hi))
  }

  lemma AnsweredRange(chain: nat -> seq<Log>, poll: Poll, size: nat, a: Asked)
    requires Answers(chain, poll) && MadeIn(a, poll, size) && a.range.lo <= a.range.hi
    ensures a.logs == Some(LogsBetween(chain, a.range.lo, a.range.hi))
  {
    assert Signed64(a.range.lo) == a.range.lo && Signed64(a.range.hi) == a.range.hi;
  }

  lemma AnsweredAll(chain: nat -> seq<Log>, start: nat, polls: seq<Poll>, size: nat)
    requires size > 0 && forall poll | poll in polls :: Answers(chain, poll)
    ensures var asked := AfterPolls(State(start, []), polls, size).asked;
            Truthful(chain, asked) && FailedRangesAreEmpty(chain, asked)
  {
    var s := AfterPolls(State(start, []), polls, size);
    RunEndToEnd(start, State(start, []), polls, size);
    forall a | a in s.asked ensures a.logs == Some(LogsBetween(chain, a.range.lo, a.range.hi)) {
      QueriesAreMade(State(start, []), polls, size, a);
      LastRange(start, s.asked, s.lastBlock, size);
      var poll :| poll in polls && MadeIn(a, poll, size);
      AnsweredRange(chain, poll, size, a);
    }
  }

  /** If the node answers, whatever heights it reports, the listener handles exactly the logs of all blocks above the
      start and up to the greatest height reported, each once and in order. */
  lemma AllLogsHandled(chain: nat -> seq<Log>, start: nat, polls: seq<Poll>, size: nat, last: nat)
    requires size > 0 && forall poll | poll in polls :: Answers(chain, poll)
    requires (last == start || Reached(polls, last)) && start <= last && !Reached(polls, last + 1)
    ensures Handled(AfterPolls(State(start, []), polls, size).asked) == LogsBetween(chain, start + 1, last)
  {
    AnsweredAll(chain, start, polls, size);
    NothingLostIffFailuresEmpty(chain, start, polls, size);
    LastBlockIsHighest(State(start, []), polls, size, last);
    LastBlockIsHighest(State(start, []), polls, size, last + 1);
  }

  // The listener, with uint64 counters

  /** First block of the last batch. */
  function LastStart(from: nat, upto: nat, size: nat): nat
    requires size > 0 && from <= upto
    decreases upto - from
  {
    if from + size <= upto then LastStart(from + size, upto, size) else from
  }

  /** In closed form. */
  lemma {:induction false} LastStartIs(from: nat, upto: nat, size: nat)
    requires size > 0 && from <= upto
    ensures LastStart(from, upto, size) == from + (upto - from) / size * size
    decreases upto - from
  {
    if from + size <= upto {
      LastStartIs(from + size, upto, size);
      DivStep(upto - from, size);
      assert ((upto - from - size) / size + 1) * size == (upto - from - size) / size * size + size;
    } else {
      DivUnique(upto - from, size, 0, upto - from);
    }
  }

  lemma DivStep(n: nat, size: nat)
    requires 0 < size <= n
    ensures n / size == (n - size) / size + 1
  {
    var q, r := (n - size) / size, (n - size) % size;
    assert n == (q + 1) * size + r;
    DivUnique(n, size, q + 1, r);
  }

  lemma DivUnique(n: nat, size: nat, q: nat, r: nat)
    requires size > 0 && n == q * size + r && r < size
    ensures n / size == q
  {
    MultiplesApart(n / size, q, size);
    MultiplesApart(q, n / size, size);
    assert n / size * size + n % size == n;
  }

  lemma MultiplesApart(a: nat, b: nat, size: nat)
    ensures a < b ==> a * size + size <= b * size
  {
    if a < b {
      assert (a + 1) * size <= b * size;
    }
  }

  lemma {:induction false} LastStartBound(from: nat, upto: nat, size: nat)
    requires size > 0 && from <= upto
    ensures from <= LastStart(from, upto, size) <= upto < LastStart(from, upto, size) + size
    decreases upto - from
  {
    if from + size <= upto {
      LastStartBound(from + size, upto, size);
    }
  }

  /** The loop counter of a poll passes 2^64 exactly under this condition on its first and last block. */
  predicate Wraps(from: nat, upto: nat, size: nat)
    requires size > 0 && from <= upto
  {
    from + (upto - from) / size * size + size >= UINT64
  }

  lemma WrapsAtLast(from: nat, upto: nat, size: nat)
    requires size > 0 && from <= upto
    ensures Wraps(from, upto, size) <==> LastStart(from, upto, size) + size >= UINT64
  {
    LastStartIs(from, upto, size);
  }

  /** In particular it does not when the last block plus the batch size is below 2^64. */
  lemma NoWrapBelow(from: nat, upto: nat, size: nat)
    requires size > 0 && from <= upto && upto + size < UINT64
    ensures !Wraps(from, upto, size)
  {
    WrapsAtLast(from, upto, size);
    LastStartBound(from, upto, size);
  }

  /** What a batching loop has to ask for, and where its last batch begins. */
  datatype Scan = Scan(upto: nat, size: nat, fetch: Query -> Option<seq<Log>>, all: seq<Asked>, last: nat)

  function Whole(from: nat, upto: nat, size: nat, fetch: Query -> Option<seq<Log>>): (scan: Scan)
    requires size > 0 && from <= upto < UINT64
    ensures InScan(scan, from, [])
  {
    Scan(upto, size, fetch, Batches(from, upto, size, fetch), LastStart(from, upto, size))
  }

  /** The loop has come to `from`, and has asked what is in `done`. */
  predicate InScan(scan: Scan, from: nat, done: seq<Asked>) {
    && scan.size > 0 && scan.upto < UINT64
    && done + Batches(from, scan.upto, scan.size, scan.fetch) == scan.all
    && if from <= scan.upto then LastStart(from, scan.upto, scan.size) == scan.last
       else scan.last + scan.size < UINT64
  }

  function NextAsked(scan: Scan, from: nat): Asked
    requires scan.size > 0 && from <= scan.upto
  {
    var range := Range(from, Min(from + scan.size - 1, scan.upto));
    Asked(range, scan.fetch(QueryFor(range)))
  }

  lemma ScanOn(scan: Scan, from: nat, done: seq<Asked>)
    requires InScan(scan, from, done) && from <= scan.upto
    ensures from + scan.size >= UINT64 ==> scan.last + scan.size >= UINT64
    ensures from + scan.size < UINT64 ==> InScan(scan, from + scan.size, done + [NextAsked(scan, from)])
  {
    LastStartBound(from, scan.upto, scan.size);
    BatchesStep(from, scan.upto, scan.size, scan.fetch);
  }

  class ChainListener {
    const batchSize: nat
    var lastBlock: nat
    ghost var asked: seq<Asked>
    ghost var handled: seq<Log>

    ghost function View(): State
      reads this
    {
      State(lastBlock, asked)
    }

    ghost predicate Valid()
      reads this
    {
      batchSize > 0 && lastBlock < UINT64 && handled == Handled(asked)
    }

    /** A positive configured start block puts the listener in backfill mode; otherwise it starts at the current
        height, or at 0 when that is not known. */
    constructor (startBlock: nat, head: Option<nat>)
      requires startBlock < UINT64 && (head.Some? ==> head.value < UINT64)
      ensures Valid() && asked == []
      ensures startBlock > 0 ==> lastBlock == startBlock && batchSize == 5000
      ensures startBlock == 0 ==> lastBlock == (if head.Some? then head.value else 0) && batchSize == 1000
    {
      batchSize := if startBlock > 0 then 5000 else 1000;
      lastBlock := if startBlock > 0 then startBlock else if head.Some? then head.value else 0;
      asked, handled := [], [];
    }

    /** One turn of the polling loop. When the counter passes 2^64 the batching loop would go on from a small block
        number; the method stops there and says so. */
    method DoPoll(poll: Poll) returns (wrapped: bool)
      requires Valid() && (poll.latest.Some? ==> poll.latest.value < UINT64)
      modifies this
      ensures wrapped <==> poll.latest.Some? && poll.latest.value > old(lastBlock)
                           && Wraps(old(lastBlock) + 1, poll.latest.value, batchSize)
      ensures !wrapped ==> Valid() && View() == AfterPoll(old(View()), poll, batchSize)
      ensures !wrapped && poll.latest.Some? && poll.latest.value > old(lastBlock) ==> lastBlock == poll.latest.value
      ensures poll.latest.None? || poll.latest.value <= old(lastBlock) ==> View() == old(View())
    {
      wrapped := false;
      if poll.latest.None? {
        return;
      }
      var latestBlock := poll.latest.value;
      if latestBlock <= lastBlock {
        return;
      }
      WrapsAtLast(lastBlock + 1, latestBlock, batchSize);
      wrapped := Scan(lastBlock + 1, latestBlock, poll.fetch);
      if !wrapped {
        lastBlock := latestBlock;
      }
    }

    /** The query for one batch; its logs are handled if it succeeds. */
    method Ask(range: Range, fetch: Query -> Option<seq<Log>>)
      requires handled == Handled(asked)
      modifies this`asked, this`handled
      ensures asked == old(asked) + [Asked(range, fetch(QueryFor(range)))] && handled == Handled(asked)
    {
      var logs := fetch(QueryFor(range));
      HandledAppend(asked, [Asked(range, logs)]);
      asked := asked + [Asked(range, logs)];
      if logs.Some? {
        handled := handled + logs.value;
      }
    }

    /** One turn of the batching loop, which goes on from `next` unless that wraps. */
    method AskBatch(from: nat, toBlock: nat, fetch: Query -> Option<seq<Log>>, ghost scan: Scan, ghost done: seq<Asked>)
      returns (wrapped: bool, next: nat)
      requires handled == Handled(asked) && from <= toBlock < UINT64
      requires InScan(scan, from, done) && scan.upto == toBlock && scan.size == batchSize && scan.fetch == fetch
      modifies this`asked, this`handled
      ensures wrapped ==> scan.last + batchSize >= UINT64
      ensures !wrapped ==>
                && next == from + batchSize < UINT64 && InScan(scan, next, done + [NextAsked(scan, from)])
                && asked == old(asked) + [NextAsked(scan, from)] && handled == Handled(asked)
    {
      next := from + batchSize;
      ScanOn(scan, from, done);
      if next >= UINT64 {
        // The counter can only wrap in the last batch.
        return true, next;
      }
      var upto := from + batchSize - 1;
      if upto > toBlock {
        upto := toBlock;
      }
      Ask(Range(from, upto), fetch);
      wrapped := false;
    }

    /** The batching loop. */
    method Scan(fromBlock: nat, toBlock: nat, fetch: Query -> Option<seq<Log>>) returns (wrapped: bool)
      requires Valid() && fromBlock <= toBlock < UINT64
      modifies this`asked, this`handled
      ensures wrapped <==> LastStart(fromBlock, toBlock, batchSize) + batchSize >= UINT64
      ensures !wrapped ==> Valid() && asked == old(asked) + Batches(fromBlock, toBlock, batchSize, fetch)
    {
      var from := fromBlock;
      ghost var done: seq<Asked> := [];
      ghost var scan := Whole(fromBlock, toBlock, batchSize, fetch);
      wrapped := false;
      while from <= toBlock
        invariant fromBlock <= from < UINT64
        invariant handled == Handled(asked)
        invariant asked == old(asked) + done
        invariant InScan(scan, from, done)
        decreases toBlock + 1 - from
      {
        ghost var a := NextAsked(scan, from);
        wrapped, from := AskBatch(from, toBlock, fetch, scan, done);
        if wrapped {
          return;
        }
        done := done + [a];
      }
    }
  }
}
