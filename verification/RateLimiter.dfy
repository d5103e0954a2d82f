/** The token-bucket limiter of middleware.go: buckets as values, what a whole run of requests can and cannot admit,
    and the RateLimiter object. Tokens and clock readings are reals; a clock reading is in seconds. */
module RateLimiter {
  import opened Wrappers

  /** `lastCheck` is None for the zero time a new bucket starts with. */
  datatype Bucket = Bucket(tokens: real, lastCheck: Option<real>)

  datatype Config = Config(rate: int, burst: int)

  datatype Request = Request(key: string, now: real)

  /** Seconds since the zero time, as Sub reports it: the largest time.Duration. */
  const SATURATED: real := 9223372036.854775807

  function Elapsed(b: Bucket, now: real): real {
    match b.lastCheck
    case None => SATURATED
    case Some(t) => now - t
  }

  function Min(a: real, b: real): real {
    if a < b then a else b
  }

  /** Tokens that flow into a bucket in a span of time. */
  function Inflow(c: Config, span: real): real {
    span * c.rate as real
  }

  lemma InflowAdds(c: Config, a: real, b: real)
    ensures Inflow(c, a + b) == Inflow(c, a) + Inflow(c, b)
  {
  }

  lemma InflowPositive(c: Config, a: real)
    requires c.rate >= 0 && a >= 0.0
    ensures Inflow(c, a) >= 0.0
  {
  }

  lemma InflowGrows(c: Config, a: real, b: real)
    requires c.rate >= 0 && a <= b
    ensures Inflow(c, a) <= Inflow(c, b)
  {
    InflowPositive(c, b - a);
    InflowAdds(c, a, b - a);
    assert a + (b - a) == b;
  }

  function NewBucket(c: Config): Bucket {
    Bucket(c.burst as real, None)
  }

  function Refill(c: Config, b: Bucket, now: real): Bucket {
    Bucket(Min(b.tokens + Inflow(c, Elapsed(b, now)), c.burst as real), Some(now))
  }

  predicate Admits(c: Config, b: Bucket, now: real) {
    Refill(c, b, now).tokens >= 1.0
  }

  /** The bucket once a request has been decided by `admit`. */
  function Charge(c: Config, b: Bucket, now: real, admit: bool): Bucket {
    var b' := Refill(c, b, now);
    if admit then b'.(tokens := b'.tokens - 1.0) else b'
  }

  // Runs of one bucket

  /** The decisions of Allow for requests of one key. */
  function Decisions(c: Config, b: Bucket, times: seq<real>): (admitted: seq<bool>)
    ensures |admitted| == |times|
    decreases |times|
  {
    if times == [] then []
    else
      var admit := Admits(c, b, times[0]);
      [admit] + Decisions(c, Charge(c, b, times[0], admit), times[1..])
  }

  // What a new key is allowed

  /** Clock readings never go back. */
  ghost predicate Ascending(times: seq<real>) {
    forall i, j | 0 <= i < j < |times| :: times[i] <= times[j]
  }

  /** Requests admitted among those from i to n - 1. */
  function Between(decisions: seq<bool>, i: nat, n: nat): nat
    requires i <= n <= |decisions|
  {
    if i == n then 0 else Between(decisions, i, n - 1) + (if decisions[n - 1] then 1 else 0)
  }

  /** Request n, with what has been admitted since request i, takes no more than the burst and what has flowed in
      since. */
  predicate WithinWindow(c: Config, times: seq<real>, decisions: seq<bool>, i: nat, n: nat)
    requires i <= n < |times| && n <= |decisions|
  {
    Between(decisions, i, n) as real + 1.0 <= c.burst as real + (times[n] - times[i]) * c.rate as real
  }

  /** Request n keeps to the rate: it does so since every earlier request, and by itself. */
  ghost predicate WithinRate(c: Config, times: seq<real>, decisions: seq<bool>, n: nat)
    requires n < |times| && n <= |decisions|
  {
    forall i | 0 <= i <= n :: WithinWindow(c, times, decisions, i, n)
  }

  /** Decisions for the requests of a new key of which none takes a token that is not there. */
  ghost predicate NeverOverdraws(c: Config, times: seq<real>, decisions: seq<bool>)
    requires |decisions| == |times|
  {
    forall n | 0 <= n < |times| :: decisions[n] ==> WithinRate(c, times, decisions, n)
  }

  /** A bucket after n requests with the given decisions. */
  function After(c: Config, b: Bucket, times: seq<real>, decisions: seq<bool>, n: nat): Bucket
    requires n <= |times| && n <= |decisions|
  {
    if n == 0 then b else Charge(c, After(c, b, times, decisions, n - 1), times[n - 1], decisions[n - 1])
  }

  // A bucket by what flows in and out between requests, the flow into it before request n being flow(n)

  function Taken(decisions: seq<bool>, n: nat): real
    requires n < |decisions|
  {
    if decisions[n] then 1.0 else 0.0
  }

  function Level(burst: real, flow: nat -> real, decisions: seq<bool>, n: nat): real
    requires n <= |decisions|
  {
    if n == 0 then burst
    else Min(Level(burst, flow, decisions, n - 1) - Taken(decisions, n - 1) + flow(n), burst)
  }

  /** What is left at request n of a bucket that was full at request i. */
  function Left(burst: real, flow: nat -> real, decisions: seq<bool>, i: nat, n: nat): real
    requires i <= n <= |decisions|
  {
    if i == n then burst else Left(burst, flow, decisions, i, n - 1) - Taken(decisions, n - 1) + flow(n)
  }

  /** The level at request n is the least of what would be left had the bucket been full at an earlier one. */
  lemma {:induction false} LevelIsLeast(burst: real, flow: nat -> real, decisions: seq<bool>, n: nat)
    returns (least: nat)
    requires n <= |decisions|
    ensures least <= n && Level(burst, flow, decisions, n) == Left(burst, flow, decisions, least, n)
    ensures forall i | 0 <= i <= n :: Level(burst, flow, decisions, n) <= Left(burst, flow, decisions, i, n)
  {
    if n == 0 {
      return 0;
    }
    var before := LevelIsLeast(burst, flow, decisions, n - 1);
    least := if Level(burst, flow, decisions, n) == Left(burst, flow, decisions, before, n) then before else n;
    forall i | 0 <= i < n ensures Level(burst, flow, decisions, n) <= Left(burst, flow, decisions, i, n) {
      assert Level(burst, flow, decisions, n - 1) <= Left(burst, flow, decisions, i, n - 1);
    }
  }

  function Flow(c: Config, times: seq<real>): nat -> real {
    n => if 0 < n < |times| then Inflow(c, times[n] - times[n - 1]) else 0.0
  }

  lemma {:induction false} TokensAreLevel(c: Config, times: seq<real>, decisions: seq<bool>, n: nat)
    requires c.rate >= 0 && n < |times| && n <= |decisions|
    ensures Refill(c, After(c, NewBucket(c), times, decisions, n), times[n])
            == Bucket(Level(c.burst as real, Flow(c, times), decisions, n), Some(times[n]))
  {
    if n == 0 {
      InflowPositive(c, SATURATED);
    } else {
      TokensAreLevel(c, times, decisions, n - 1);
    }
  }

  lemma {:induction false} LeftIs(c: Config, times: seq<real>, decisions: seq<bool>, i: nat, n: nat)
    requires i <= n < |times| && n <= |decisions|
    ensures Left(c.burst as real, Flow(c, times), decisions, i, n)
            == c.burst as real + Inflow(c, times[n] - times[i]) - Between(decisions, i, n) as real
  {
    if i < n {
      LeftIs(c, times, decisions, i, n - 1);
      InflowAdds(c, times[n - 1] - times[i], times[n] - times[n - 1]);
      assert (times[n - 1] - times[i]) + (times[n] - times[n - 1]) == times[n] - times[i];
    }
  }

  lemma WindowIsLeft(c: Config, times: seq<real>, decisions: seq<bool>, i: nat, n: nat)
    requires i <= n < |times| && n <= |decisions|
    ensures WithinWindow(c, times, decisions, i, n)
            <==> Left(c.burst as real, Flow(c, times), decisions, i, n) >= 1.0
  {
    LeftIs(c, times, decisions, i, n);
  }

  /** The bucket admits a request exactly if it is within the rate. */
  lemma BucketAdmitsIff(c: Config, times: seq<real>, decisions: seq<bool>, n: nat)
    requires c.rate >= 0 && n < |times| && n <= |decisions|
    ensures Admits(c, After(c, NewBucket(c), times, decisions, n), times[n]) <==> WithinRate(c, times, decisions, n)
  {
    var burst, flow := c.burst as real, Flow(c, times);
    TokensAreLevel(c, times, decisions, n);
    var least := LevelIsLeast(burst, flow, decisions, n);
    forall i | 0 <= i <= n
      ensures WithinWindow(c, times, decisions, i, n) <==> Left(burst, flow, decisions, i, n) >= 1.0
    {
      WindowIsLeft(c, times, decisions, i, n);
    }
    LeastDecides(burst, flow, decisions, n, least);
  }

  lemma LeastDecides(burst: real, flow: nat -> real, decisions: seq<bool>, n: nat, least: nat)
    requires least <= n <= |decisions| && Level(burst, flow, decisions, n) == Left(burst, flow, decisions, least, n)
    requires forall i | 0 <= i <= n :: Level(burst, flow, decisions, n) <= Left(burst, flow, decisions, i, n)
    ensures Level(burst, flow, decisions, n) >= 1.0
            <==> forall i | 0 <= i <= n :: Left(burst, flow, decisions, i, n) >= 1.0
  {
  }

  lemma {:induction false} AfterFirst(c: Config, b: Bucket, times: seq<real>, decisions: seq<bool>, n: nat)
    requires 0 < n <= |times| && n <= |decisions|
    ensures After(c, b, times, decisions, n)
            == After(c, Charge(c, b, times[0], decisions[0]), times[1..], decisions[1..], n - 1)
  {
    if n > 1 {
      AfterFirst(c, b, times, decisions, n - 1);
    }
  }

  lemma {:induction false} DecisionAt(c: Config, b: Bucket, times: seq<real>, n: nat)
    requires n < |times|
    ensures Decisions(c, b, times)[n] == Admits(c, After(c, b, times, Decisions(c, b, times), n), times[n])
    decreases n
  {
    if n > 0 {
      var decisions := Decisions(c, b, times);
      var b' := Charge(c, b, times[0], decisions[0]);
      assert decisions[1..] == Decisions(c, b', times[1..]);
      DecisionAt(c, b', times[1..], n - 1);
      AfterFirst(c, b, times, decisions, n);
    }
  }

  /** Allow admits request n of a new key if and only if, for every earlier request i and for n itself, the requests
      admitted since i and this one are at most burst + rate * (the time since i). */
  lemma AllowAdmitsIff(c: Config, times: seq<real>, n: nat)
    requires c.rate >= 0 && n < |times|
    ensures Decisions(c, NewBucket(c), times)[n] <==> WithinRate(c, times, Decisions(c, NewBucket(c), times), n)
  {
    DecisionAt(c, NewBucket(c), times, n);
    BucketAdmitsIff(c, times, Decisions(c, NewBucket(c), times), n);
  }

  /** So Allow itself never overdraws. */
  lemma AllowNeverOverdraws(c: Config, times: seq<real>)
    requires c.rate >= 0
    ensures NeverOverdraws(c, times, Decisions(c, NewBucket(c), times))
  {
    forall n | 0 <= n < |times|
      ensures Decisions(c, NewBucket(c), times)[n] <==> WithinRate(c, times, Decisions(c, NewBucket(c), times), n)
    {
      AllowAdmitsIff(c, times, n);
    }
  }

  // Greedy optimality

  lemma {:induction false} BetweenSplits(decisions: seq<bool>, i: nat, n: nat)
    requires i <= n <= |decisions|
    ensures Between(decisions, 0, n) == Between(decisions, 0, i) + Between(decisions, i, n)
  {
    if i < n {
      BetweenSplits(decisions, i, n - 1);
    }
  }

  /** Where the greedy decision is to refuse and the other is not, the other has admitted less since some request. */
  lemma RefusalIsBehind(c: Config, times: seq<real>, greedy: seq<bool>, other: seq<bool>, n: nat) returns (i: nat)
    requires n < |times| && n <= |greedy| && n <= |other|
    requires !WithinRate(c, times, greedy, n) && WithinRate(c, times, other, n)
    ensures i <= n && Between(other, i, n) < Between(greedy, i, n)
  {
    i :| 0 <= i <= n && !WithinWindow(c, times, greedy, i, n);
    assert WithinWindow(c, times, other, i, n);
  }

  /** Taking every token as soon as it is there is optimal: no decisions that never overdraw have admitted more of the
      first n requests of a new key than Allow, for any n. */
  lemma {:induction false} GreedyIsOptimal(c: Config, times: seq<real>, decisions: seq<bool>, n: nat)
    requires c.rate >= 0 && |decisions| == |times| && n <= |times|
    requires NeverOverdraws(c, times, decisions)
    ensures Between(decisions, 0, n) <= Between(Decisions(c, NewBucket(c), times), 0, n)
  {
    if n > 0 {
      var greedy := Decisions(c, NewBucket(c), times);
      GreedyIsOptimal(c, times, decisions, n - 1);
      AllowAdmitsIff(c, times, n - 1);
      if decisions[n - 1] && !greedy[n - 1] {
        var i := RefusalIsBehind(c, times, greedy, decisions, n - 1);
        GreedyIsOptimal(c, times, decisions, i);
        BetweenSplits(decisions, i, n - 1);
        BetweenSplits(greedy, i, n - 1);
      }
    }
  }

  // Windows of time

  /** Requests admitted at readings from t1 to t2. */
  function CountWindow(times: seq<real>, decisions: seq<bool>, t1: real, t2: real): nat
    requires |decisions| == |times|
    decreases |times|
  {
    if times == [] then 0
    else (if t1 <= times[0] <= t2 && decisions[0] then 1 else 0) + CountWindow(times[1..], decisions[1..], t1, t2)
  }

  lemma {:induction false} CountWindowLast(times: seq<real>, decisions: seq<bool>, t1: real, t2: real, n: nat)
    requires |decisions| == |times| == n + 1
    ensures CountWindow(times, decisions, t1, t2)
            == CountWindow(times[..n], decisions[..n], t1, t2) + (if t1 <= times[n] <= t2 && decisions[n] then 1 else 0)
    decreases n
  {
    if n > 0 {
      assert times[..n][1..] == times[1..][..n - 1] && decisions[..n][1..] == decisions[1..][..n - 1];
      CountWindowLast(times[1..], decisions[1..], t1, t2, n - 1);
    }
  }

  /** The window holds no request before the first at or after t1. */
  lemma {:induction false} CountWindowFrom(times: seq<real>, decisions: seq<bool>, t1: real, t2: real, i: nat, n: nat)
    requires |decisions| == |times| && i <= n <= |times| && forall j | 0 <= j < i :: times[j] < t1
    ensures CountWindow(times[..n], decisions[..n], t1, t2) <= Between(decisions, i, n)
  {
    if n > 0 {
      assert times[..n][..n - 1] == times[..n - 1] && decisions[..n][..n - 1] == decisions[..n - 1];
      CountWindowLast(times[..n], decisions[..n], t1, t2, n - 1);
      CountWindowFrom(times, decisions, t1, t2, if i < n then i else n - 1, n - 1);
    }
  }

  lemma {:induction false} FirstAt(times: seq<real>, t1: real, n: nat) returns (i: nat)
    requires n < |times| && t1 <= times[n]
    ensures i <= n && t1 <= times[i] && forall j | 0 <= j < i :: times[j] < t1
  {
    i := 0;
    while times[i] < t1
      invariant i <= n && forall j | 0 <= j < i :: times[j] < t1
      decreases n - i
    {
      i := i + 1;
    }
  }

  /** Capacity of the bucket; a negative burst admits nothing. */
  function Capacity(c: Config): real {
    if c.burst < 0 then 0.0 else c.burst as real
  }

  lemma WindowOfSpan(c: Config, times: seq<real>, decisions: seq<bool>, i: nat, n: nat, span: real)
    requires i <= n < |times| && n <= |decisions| && WithinWindow(c, times, decisions, i, n)
    requires c.rate >= 0 && 0.0 <= times[n] - times[i] <= span
    ensures Between(decisions, i, n) as real + 1.0 <= Capacity(c) + Inflow(c, span)
  {
    var used := times[n] - times[i];
    WindowIsLeft(c, times, decisions, i, n);
    LeftIs(c, times, decisions, i, n);
    InflowGrows(c, used, span);
  }

  lemma {:induction false} WindowOfOneKey(c: Config, times: seq<real>, decisions: seq<bool>, n: nat, t1: real, t2: real)
    requires c.rate >= 0 && Ascending(times) && |decisions| == |times| && n <= |times| && t1 <= t2
    requires NeverOverdraws(c, times, decisions)
    ensures CountWindow(times[..n], decisions[..n], t1, t2) as real <= Capacity(c) + Inflow(c, t2 - t1)
  {
    InflowPositive(c, t2 - t1);
    if n > 0 {
      var last := n - 1;
      WindowOfOneKey(c, times, decisions, last, t1, t2);
      assert times[..n][..last] == times[..last] && decisions[..n][..last] == decisions[..last];
      CountWindowLast(times[..n], decisions[..n], t1, t2, last);
      if t1 <= times[last] <= t2 && decisions[last] {
        var i := FirstAt(times, t1, last);
        CountWindowFrom(times, decisions, t1, t2, i, last);
        assert WithinWindow(c, times, decisions, i, last);
        WindowOfSpan(c, times, decisions, i, last, t2 - t1);
      }
    }
  }

  // All keys together

  function BucketOf(c: Config, buckets: map<string, Bucket>, key: string): Bucket {
    if key in buckets then buckets[key] else NewBucket(c)
  }

  function AllowAll(c: Config, buckets: map<string, Bucket>, trace: seq<Request>): (decisions: seq<bool>)
    ensures |decisions| == |trace|
    decreases |trace|
  {
    if trace == [] then []
    else
      var Request(key, now) := trace[0];
      var b := BucketOf(c, buckets, key);
      var admit := Admits(c, b, now);
      [admit] + AllowAll(c, buckets[key := Charge(c, b, now, admit)], trace[1..])
  }

  function TimesOf(trace: seq<Request>, key: string): seq<real> {
    if trace == [] then []
    else if trace[0].key == key then [trace[0].now] + TimesOf(trace[1..], key)
    else TimesOf(trace[1..], key)
  }

  function DecisionsOf(trace: seq<Request>, decisions: seq<bool>, key: string): (r: seq<bool>)
    requires |decisions| == |trace|
    ensures |r| == |TimesOf(trace, key)|
    decreases |trace|
  {
    if trace == [] then []
    else if trace[0].key == key then [decisions[0]] + DecisionsOf(trace[1..], decisions[1..], key)
    else DecisionsOf(trace[1..], decisions[1..], key)
  }

  /** Requests of one key admitted at readings from t1 to t2. */
  function AdmittedIn(trace: seq<Request>, decisions: seq<bool>, key: string, t1: real, t2: real): nat
    requires |decisions| == |trace|
    decreases |trace|
  {
    if trace == [] then 0
    else (if trace[0].key == key && t1 <= trace[0].now <= t2 && decisions[0] then 1 else 0)
         + AdmittedIn(trace[1..], decisions[1..], key, t1, t2)
  }

  ghost predicate Chronological(trace: seq<Request>) {
    forall i, j | 0 <= i < j < |trace| :: trace[i].now <= trace[j].now
  }

  /** What Allow decides for one key depends on the requests of that key alone. */
  lemma {:induction false} KeysAreIndependent(c: Config, buckets: map<string, Bucket>, trace: seq<Request>, key: string)
    ensures DecisionsOf(trace, AllowAll(c, buckets, trace), key)
            == Decisions(c, BucketOf(c, buckets, key), TimesOf(trace, key))
    decreases |trace|
  {
    if trace != [] {
      var Request(k, now) := trace[0];
      var b := BucketOf(c, buckets, k);
      var buckets' := buckets[k := Charge(c, b, now, Admits(c, b, now))];
      KeysAreIndependent(c, buckets', trace[1..], key);
      assert AllowAll(c, buckets, trace)[1..] == AllowAll(c, buckets', trace[1..]);
      if k == key {
        assert TimesOf(trace, key)[1..] == TimesOf(trace[1..], key);
      }
    }
  }

  lemma {:induction false} AdmittedInIsCount(trace: seq<Request>, decisions: seq<bool>, key: string, t1: real, t2: real)
    requires |decisions| == |trace|
    ensures AdmittedIn(trace, decisions, key, t1, t2)
            == CountWindow(TimesOf(trace, key), DecisionsOf(trace, decisions, key), t1, t2)
    decreases |trace|
  {
    if trace != [] {
      AdmittedInIsCount(trace[1..], decisions[1..], key, t1, t2);
      if trace[0].key == key {
        assert TimesOf(trace, key)[1..] == TimesOf(trace[1..], key);
        assert DecisionsOf(trace, decisions, key)[1..] == DecisionsOf(trace[1..], decisions[1..], key);
      }
    }
  }

  lemma {:induction false} TimesOfAscend(trace: seq<Request>, key: string)
    requires Chronological(trace)
    ensures Ascending(TimesOf(trace, key))
    ensures forall i | 0 <= i < |TimesOf(trace, key)| :: trace[0].now <= TimesOf(trace, key)[i]
    decreases |trace|
  {
    if trace != [] {
      TimesOfAscend(trace[1..], key);
      if |trace| > 1 {
        assert trace[0].now <= trace[1].now;
      }
    }
  }

  /** In any run, whatever other keys ask, request n of a key is admitted if and only if it is within the rate of that
      key. */
  lemma AdmittedIff(c: Config, trace: seq<Request>, key: string, n: nat)
    requires c.rate >= 0 && n < |TimesOf(trace, key)|
    ensures var decisions := DecisionsOf(trace, AllowAll(c, map[], trace), key);
            decisions[n] <==> WithinRate(c, TimesOf(trace, key), decisions, n)
  {
    KeysAreIndependent(c, map[], trace, key);
    AllowAdmitsIff(c, TimesOf(trace, key), n);
  }

  /** The window bound: in any run, with any requests of other keys in between, the requests of one key admitted from
      t1 to t2 number at most burst + rate * (t2 - t1). */
  lemma WindowBound(c: Config, trace: seq<Request>, key: string, t1: real, t2: real)
    requires c.rate >= 0 && Chronological(trace) && t1 <= t2
    ensures AdmittedIn(trace, AllowAll(c, map[], trace), key, t1, t2) as real <= Capacity(c) + Inflow(c, t2 - t1)
  {
    var times := TimesOf(trace, key);
    var decisions := DecisionsOf(trace, AllowAll(c, map[], trace), key);
    TimesOfAscend(trace, key);
    KeysAreIndependent(c, map[], trace, key);
    AllowNeverOverdraws(c, times);
    AdmittedInIsCount(trace, AllowAll(c, map[], trace), key, t1, t2);
    WindowOfOneKey(c, times, decisions, |times|, t1, t2);
    assert times[..|times|] == times && decisions[..|times|] == decisions;
  }

  /** Greedy optimality in a run of many keys: decisions that never overdraw the bucket of a key have admitted no more
      of its first n requests than Allow. */
  lemma AllowIsOptimal(c: Config, trace: seq<Request>, decisions: seq<bool>, key: string, n: nat)
    requires c.rate >= 0 && |decisions| == |trace| && n <= |TimesOf(trace, key)|
    requires NeverOverdraws(c, TimesOf(trace, key), DecisionsOf(trace, decisions, key))
    ensures Between(DecisionsOf(trace, decisions, key), 0, n)
            <= Between(DecisionsOf(trace, AllowAll(c, map[], trace), key), 0, n)
  {
    KeysAreIndependent(c, map[], trace, key);
    GreedyIsOptimal(c, TimesOf(trace, key), DecisionsOf(trace, decisions, key), n);
  }

  // The objects

  class TokenBucket {
    var tokens: real
    var lastCheck: Option<real>
    const capacity: real
    const rate: real

    function View(): Bucket
      reads this
    {
      Bucket(tokens, lastCheck)
    }

    constructor (c: Config)
      ensures View() == NewBucket(c) && capacity == c.burst as real && rate == c.rate as real
    {
      tokens, lastCheck, capacity, rate := c.burst as real, None, c.burst as real, c.rate as real;
    }

    /** The refill and the decision, on the bucket of the key. */
    method Check(now: real, ghost c: Config) returns (ok: bool)
      requires capacity == c.burst as real && rate == c.rate as real
      modifies this
      ensures ok == Admits(c, old(View()), now) && View() == Charge(c, old(View()), now, ok)
    {
      var elapsed := if lastCheck.Some? then now - lastCheck.value else SATURATED;
      tokens := tokens + elapsed * rate;
      if tokens > capacity {
        tokens := capacity;
      }
      lastCheck := Some(now);
      ok := tokens >= 1.0;
      if ok {
        tokens := tokens - 1.0;
      }
    }
  }

  class RateLimiter {
    const config: Config
    var buckets: map<string, TokenBucket>

    /** No two keys share a bucket object. */
    ghost predicate Valid()
      reads this, buckets.Values
    {
      && (forall j, k | j in buckets && k in buckets && j != k :: buckets[j] != buckets[k])
      && (forall k | k in buckets ::
            buckets[k].capacity == config.burst as real && buckets[k].rate == config.rate as real)
    }

    ghost function View(): map<string, Bucket>
      reads this, buckets.Values
    {
      map k | k in buckets :: buckets[k].View()
    }

    constructor (rate: int, burst: int)
      ensures Valid() && View() == map[] && config == Config(rate, burst)
    {
      config, buckets := Config(rate, burst), map[];
    }

    method Allow(key: string, now: real) returns (ok: bool)
      requires Valid()
      modifies this, buckets.Values
      ensures Valid() && fresh(buckets.Values - old(buckets.Values))
      ensures var b := BucketOf(config, old(View()), key);
              ok == Admits(config, b, now) && View() == old(View())[key := Charge(config, b, now, ok)]
    {
      var bucket: TokenBucket;
      if key in buckets {
        bucket := buckets[key];
      } else {
        bucket := new TokenBucket(config);
        buckets := buckets[key := bucket];
      }
      ok := bucket.Check(now, config);
    }
  }
}
