/** How often the handler of a task returns when its clients submit it while the pool holds it. Several workers may
    then have the task, and one may write `Retries` one above a value that it has read long ago. */
module PoolRaces {
  import opened PoolProtocol
  import opened PoolSafety
  import opened PoolPlaces
  import opened PoolProgress

  // The bound

  /** Ways to go n steps up and e steps right: the binomial coefficient n + e over n. */
  function Paths(n: nat, e: nat): (k: nat)
    ensures k >= 1
  {
    if n == 0 || e == 0 then 1 else Paths(n - 1, e) + Paths(n, e - 1)
  }

  /** The most handler returns that n submissions with e retries can get: n + e + 1 over n, minus one. */
  function MaxReturns(n: nat, e: nat): nat {
    Paths(n, e + 1) - 1
  }

  lemma {:induction false} SinglePath(n: nat, e: nat)
    ensures e == 1 ==> Paths(n, e) == n + 1
    ensures n == 1 ==> Paths(n, e) == e + 1
  {
    if e == 1 && n > 0 {
      SinglePath(n - 1, e);
    } else if n == 1 && e > 0 {
      SinglePath(n, e - 1);
    }
  }

  /** With one submission, one return for each retry and one more. With a race, the other submissions have all retries
      while one of them waits to write, and then all of them have all retries but one. */
  lemma MaxReturnsIs(n: nat, e: nat)
    ensures n == 0 ==> MaxReturns(n, e) == 0
    ensures n == 1 ==> MaxReturns(n, e) == e + 1
    ensures n > 0 ==> MaxReturns(n, e) == 1 + MaxReturns(n - 1, e) + (if e == 0 then 0 else MaxReturns(n, e - 1))
  {
    SinglePath(n, e + 1);
    if n > 0 {
      SinglePath(n - 1, e + 1);
    }
  }

  /** What k submissions that cannot come back to a value of `Retries` lose, with x + 1 retries left above it. */
  function Loss(x: nat, k: int): nat {
    if k <= 0 then 0 else Paths(k - 1, x + 2)
  }

  function LossSum(n: nat, k: int): nat {
    if n == 0 then 0 else LossSum(n - 1, k) + Loss(n - 1, k)
  }

  lemma LossMore(x: nat, k: nat)
    ensures Loss(x, k + 1) == Loss(x, k) + Paths(k, x + 1)
  {
  }

  lemma {:induction false} LossGrows(x: nat, j: int, k: int)
    requires j <= k
    ensures Loss(x, j) <= Loss(x, k)
    decreases k - j
  {
    if j < k && k > 0 {
      LossMore(x, k - 1);
      LossGrows(x, j, k - 1);
    }
  }

  lemma {:induction false} LossSumIs(n: nat, k: nat)
    ensures Paths(k, n + 1) == 1 + k + LossSum(n, k)
  {
    if n > 0 {
      LossSumIs(n - 1, k);
    } else {
      SinglePath(k, 1);
    }
  }

  lemma MaxReturnsSum(n: nat, e: nat)
    ensures MaxReturns(n, e) == n + LossSum(e, n)
  {
    LossSumIs(e, n);
  }

  /** Summed over the values of `Retries` from lo to the limit: `behind` tells how many submissions cannot come back
      to a value. */
  function Lost(lo: int, limit: int, behind: int -> int): nat
    decreases limit - lo
  {
    if lo >= limit then 0 else Loss(limit - 1 - lo, behind(lo)) + Lost(lo + 1, limit, behind)
  }

  lemma {:induction false} LostGrows(lo: int, limit: int, f: int -> int, g: int -> int)
    requires forall y | lo <= y < limit :: f(y) <= g(y)
    ensures Lost(lo, limit, f) <= Lost(lo, limit, g)
    decreases limit - lo
  {
    if lo < limit {
      LossGrows(limit - 1 - lo, f(lo), g(lo));
      LostGrows(lo + 1, limit, f, g);
    }
  }

  lemma {:induction false} LostAtMost(lo: int, limit: int, f: int -> int, k: nat)
    requires forall y | lo <= y < limit :: f(y) <= k
    ensures Lost(lo, limit, f) <= LossSum(if lo < limit then limit - lo else 0, k)
    decreases limit - lo
  {
    if lo < limit {
      LossGrows(limit - 1 - lo, f(lo), k);
      LostAtMost(lo + 1, limit, f, k);
    }
  }

  /** A write of a + 1 makes all above a available again, at most k submissions, and takes a away from all of them. */
  lemma {:induction false} LostByWrite(lo: int, limit: int, a: int, f: int -> int, g: int -> int, k: nat)
    requires lo <= a < limit
    requires forall y | lo <= y < a :: f(y) <= g(y)
    requires f(a) <= k && g(a) == k + 1
    requires forall y | a < y < limit :: f(y) <= k
    ensures Lost(lo, limit, f) + k + 1 <= Lost(lo, limit, g)
    decreases a - lo
  {
    if lo < a {
      LossGrows(limit - 1 - lo, f(lo), g(lo));
      LostByWrite(lo + 1, limit, a, f, g, k);
    } else {
      var x := limit - 1 - a;
      LossMore(x, k);
      LossGrows(x, f(a), k);
      LostAtMost(a + 1, limit, f, k);
      LossSumIs(x, k);
    }
  }

  // Races

  /** The step is a return of the handler for t. */
  predicate Returns(s: State, a: Action, t: TaskId)
    requires Enabled(s, a)
  {
    MoveOf(s, a) == Go(t, Busy, Good) || MoveOf(s, a) == Go(t, Busy, Read)
  }

  ghost function ReturnsIn(s: State, run: seq<Action>, t: TaskId): nat
    requires IsRun(s, run)
    decreases |run|
  {
    if run == [] then 0 else (if Returns(s, run[0], t) then 1 else 0) + ReturnsIn(Next(s, run[0]), run[1..], t)
  }

  function Retries(s: State, t: TaskId): int {
    if t in s.records then s.records[t].retries else 0
  }

  function Limit(s: State, t: TaskId): int {
    if t in s.records then s.records[t].maxRetries else 0
  }

  /** Workers that have read a value of the `Retries` of t above y, and will write one above it. */
  function ReadAbove(ws: seq<Worker>, t: TaskId, y: int): nat {
    if ws == [] then 0 else ReadAbove(ws[..|ws| - 1], t, y) + (if HasReadAbove(ws[|ws| - 1], t, y) then 1 else 0)
  }

  predicate HasReadAbove(w: Worker, t: TaskId, y: int) {
    w.Failing? && w.task == t && w.seen > y
  }

  lemma {:induction false} ReadAboveUpdate(ws: seq<Worker>, i: nat, w: Worker, t: TaskId, y: int)
    requires i < |ws|
    ensures ReadAbove(ws[i := w], t, y) + (if HasReadAbove(ws[i], t, y) then 1 else 0)
            == ReadAbove(ws, t, y) + (if HasReadAbove(w, t, y) then 1 else 0)
  {
    var n, ws' := |ws| - 1, ws[i := w];
    if i == n {
      assert ws'[..n] == ws[..n];
    } else {
      assert ws'[..n] == ws[..n][i := w];
      ReadAboveUpdate(ws[..n], i, w, t, y);
    }
  }

  lemma {:induction false} ReadAboveFalls(ws: seq<Worker>, t: TaskId, y: int, z: int)
    requires y <= z
    ensures ReadAbove(ws, t, z) <= ReadAbove(ws, t, y) <= Crew(ws, t, Read)
  {
    if ws != [] {
      ReadAboveFalls(ws[..|ws| - 1], t, y, z);
    }
  }

  /** Of n submissions in all, those whose handler may return next: still to come, or on the way to the handler. */
  function Coming(s: State, t: TaskId, n: nat): int {
    n - s.log.accepted[t] + Early(s, t)
  }

  /** The same, with those that would be granted a retry now. */
  function Ready(s: State, t: TaskId, n: nat): int {
    Coming(s, t, n) + (if Retries(s, t) <= Limit(s, t) then Number(s, t, Written) else 0)
  }

  /** Those that act on the present value of `Retries`. */
  function Eager(s: State, t: TaskId, n: nat): int {
    Coming(s, t, n) + Number(s, t, Written)
  }

  /** Those that cannot come back to the value y: they are settled, or go on from a higher one. */
  function Behind(s: State, t: TaskId, n: nat, y: int): int {
    n - Eager(s, t, n) - Number(s, t, Read) + ReadAbove(s.workers, t, y)
    + (if Retries(s, t) > y then Eager(s, t, n) else 0)
  }

  /** No value below lo is in play. */
  ghost predicate From(s: State, t: TaskId, lo: int) {
    && lo <= Retries(s, t)
    && forall w | 0 <= w < |s.workers| && s.workers[w].Failing? && s.workers[w].task == t :: lo <= s.workers[w].seen
  }

  function LostIn(s: State, t: TaskId, n: nat, lo: int): nat {
    Lost(lo, Limit(s, t), y => Behind(s, t, n, y))
  }

  /** In the step some submission becomes ready only at the price of a loss, and a return takes one that is ready. */
  ghost predicate Pays(s: State, a: Action, t: TaskId, n: nat, lo: int)
    requires Enabled(s, a)
  {
    var s' := Next(s, a);
    && Ready(s', t, n) + (if Returns(s, a, t) then 1 else 0) + LostIn(s, t, n, lo)
       <= Ready(s, t, n) + LostIn(s', t, n, lo)
    && Limit(s', t) == Limit(s, t) && From(s', t, lo)
  }

  /** The record of t and the count of its submissions in a step that is no write by its client. */
  predicate Recorded(s: State, s': State, t: TaskId, m: Move) {
    && Limit(s', t) == Limit(s, t)
    && (m != Go(t, Read, Written) ==> Retries(s', t) == Retries(s, t))
    && (m.Go? && m.t == t && m.from == Written ==> (m.dest == Away <==> Retries(s, t) <= Limit(s, t)))
    && s'.log.accepted[t] == s.log.accepted[t] + (if m.Go? && m.t == t && m.from == Gone then 1 else 0)
  }

  lemma RecordStep(s: State, a: Action, t: TaskId)
    requires Enabled(s, a) && !(a.Prepare? && a.t == t)
    ensures Recorded(s, Next(s, a), t, MoveOf(s, a)) && (MoveOf(s, a).Go? ==> IsMove(MoveOf(s, a)))
  {
    if ByWorker(a) {
      RecordByWorker(s, a, t);
    }
  }

  lemma RecordByWorker(s: State, a: Action, t: TaskId)
    requires Enabled(s, a) && ByWorker(a)
    ensures Recorded(s, Next(s, a), t, MoveOf(s, a)) && (MoveOf(s, a).Go? ==> IsMove(MoveOf(s, a)))
  {
  }

  /** Workers that read or write nothing about t in the step. */
  lemma ReadAboveStep(s: State, a: Action, t: TaskId, y: int)
    requires Enabled(s, a)
    ensures ReadAbove(Next(s, a).workers, t, y)
            == ReadAbove(s.workers, t, y)
               + (if MoveOf(s, a) == Go(t, Busy, Read) && Retries(s, t) > y then 1 else 0)
               - (if MoveOf(s, a) == Go(t, Read, Written) && s.workers[a.w].seen > y then 1 else 0)
  {
    if ByWorker(a) {
      WorkDone(s, a);
      ReadAboveUpdate(s.workers, a.w, AfterWork(s, a), t, y);
    } else if a.SendDirect? || a.TakeTask? || a.TakeRetry? || a.RetryDirect? {
      ReadAboveUpdate(s.workers, a.w, Next(s, a).workers[a.w], t, y);
    }
  }

  lemma FromStep(s: State, a: Action, t: TaskId, lo: int)
    requires Enabled(s, a) && !(a.Prepare? && a.t == t) && From(s, t, lo)
    ensures From(Next(s, a), t, lo)
  {
    var s' := Next(s, a);
    RecordStep(s, a, t);
    if a.Store? {
      assert Retries(s', t) == if s.workers[a.w].task == t then s.workers[a.w].seen + 1 else Retries(s, t);
    }
    forall w | 0 <= w < |s'.workers| && s'.workers[w].Failing? && s'.workers[w].task == t
      ensures lo <= s'.workers[w].seen
    {
      FailingWorker(s, a, w);
    }
  }

  lemma BehindMoved(s: State, s': State, t: TaskId, m: Move, n: nat, y: int)
    requires Moved(s, s', t, m) && Recorded(s, s', t, m) && (m.Go? ==> IsMove(m)) && m != Go(t, Read, Written)
    requires ReadAbove(s'.workers, t, y)
             == ReadAbove(s.workers, t, y) + (if m == Go(t, Busy, Read) && Retries(s, t) > y then 1 else 0)
    requires y < Limit(s, t)
    ensures Behind(s, t, n, y) <= Behind(s', t, n, y)
  {
  }

  lemma ReadyMoved(s: State, s': State, t: TaskId, m: Move, n: nat)
    requires Moved(s, s', t, m) && Recorded(s, s', t, m) && (m.Go? ==> IsMove(m)) && m != Go(t, Read, Written)
    ensures Ready(s', t, n) + (if m == Go(t, Busy, Good) || m == Go(t, Busy, Read) then 1 else 0) <= Ready(s, t, n)
  {
  }

  /** Any step but the write of `Retries`. */
  lemma PaysNoWrite(s: State, a: Action, t: TaskId, n: nat, lo: int)
    requires Enabled(s, a) && !(a.Prepare? && a.t == t) && From(s, t, lo) && MoveOf(s, a) != Go(t, Read, Written)
    ensures Pays(s, a, t, n, lo)
  {
    var s' := Next(s, a);
    MovesOne(s, a, t);
    RecordStep(s, a, t);
    FromStep(s, a, t, lo);
    ReadyMoved(s, s', t, MoveOf(s, a), n);
    forall y | lo <= y < Limit(s, t) ensures Behind(s, t, n, y) <= Behind(s', t, n, y) {
      ReadAboveStep(s, a, t, y);
      BehindMoved(s, s', t, MoveOf(s, a), n, y);
    }
    LostGrows(lo, Limit(s, t), y => Behind(s, t, n, y), y => Behind(s', t, n, y));
  }

  /** Where the submissions are after the write of `Retries` by a worker that has read `seen`. */
  lemma BehindWritten(s: State, w: nat, t: TaskId, n: nat, y: int)
    requires Enabled(s, Store(w)) && s.workers[w].task == t
    ensures var k, seen := n - Number(s, t, Read) + ReadAbove(s.workers, t, y), s.workers[w].seen;
            Behind(Next(s, Store(w)), t, n, y)
            == if y < seen then k else if y == seen then k + 1 else k - Eager(s, t, n)
  {
    MovesOne(s, Store(w), t);
    RecordStep(s, Store(w), t);
    ReadAboveStep(s, Store(w), t, y);
  }

  /** Before it. */
  lemma BehindReader(s: State, t: TaskId, n: nat, seen: int, y: int)
    requires s.log.accepted[t] <= n
    ensures Behind(s, t, n, y) <= n - Number(s, t, Read) + ReadAbove(s.workers, t, y)
    ensures seen <= y ==>
              Behind(s, t, n, y) <= n - Number(s, t, Read) + ReadAbove(s.workers, t, seen)
  {
    if seen <= y {
      ReadAboveFalls(s.workers, t, seen, y);
    }
  }

  lemma ReadyWritten(s: State, w: nat, t: TaskId, n: nat)
    requires Enabled(s, Store(w)) && s.workers[w].task == t
    ensures Ready(Next(s, Store(w)), t, n)
            == if s.workers[w].seen < Limit(s, t) then Eager(s, t, n) + 1 else Coming(s, t, n)
  {
    MovesOne(s, Store(w), t);
    RecordStep(s, Store(w), t);
  }

  lemma ReadersAreFew(s: State, t: TaskId, n: nat)
    requires Balance(s, t) && s.log.accepted[t] <= n
    ensures Eager(s, t, n) + Number(s, t, Read) <= n
  {
    InPoolIs(s, t);
  }

  /** The write of `Retries`: what it makes ready again is lost below. */
  lemma PaysWrite(s: State, w: nat, t: TaskId, n: nat, lo: int, s': State)
    requires Enabled(s, Store(w)) && s.workers[w].task == t && s' == Next(s, Store(w))
    requires From(s, t, lo) && Balance(s, t) && s.log.accepted[t] <= n
    ensures Ready(s', t, n) + LostIn(s, t, n, lo) <= Ready(s, t, n) + LostIn(s', t, n, lo)
  {
    var seen, limit := s.workers[w].seen, Limit(s, t);
    var before, after := y => Behind(s, t, n, y), y => Behind(s', t, n, y);
    RecordStep(s, Store(w), t);
    ReadyWritten(s, w, t, n);
    ReadersAreFew(s, t, n);
    forall y ensures after(y) == var k := n - Number(s, t, Read) + ReadAbove(s.workers, t, y);
                                 if y < seen then k else if y == seen then k + 1 else k - Eager(s, t, n) {
      BehindWritten(s, w, t, n, y);
    }
    forall y ensures before(y) <= n - Number(s, t, Read) + ReadAbove(s.workers, t, y)
             ensures seen <= y ==> before(y) <= n - Number(s, t, Read) + ReadAbove(s.workers, t, seen) {
      BehindReader(s, t, n, seen, y);
    }
    if seen < limit {
      LostByWrite(lo, limit, seen, before, after, n - Number(s, t, Read) + ReadAbove(s.workers, t, seen));
    } else {
      LostGrows(lo, limit, before, after);
    }
  }

  lemma PaysStep(s: State, a: Action, t: TaskId, n: nat, lo: int)
    requires Enabled(s, a) && !(a.Prepare? && a.t == t) && From(s, t, lo) && Balance(s, t) && s.log.accepted[t] <= n
    ensures Pays(s, a, t, n, lo)
  {
    if MoveOf(s, a) == Go(t, Read, Written) {
      PaysWrite(s, a.w, t, n, lo, Next(s, a));
      RecordStep(s, a, t);
      FromStep(s, a, t, lo);
    } else {
      PaysNoWrite(s, a, t, n, lo);
    }
  }

  lemma {:induction false} PaysRun(s: State, run: seq<Action>, t: TaskId, n: nat, lo: int)
    requires IsRun(s, run) && (forall a | a in run :: !(a.Prepare? && a.t == t))
    requires From(s, t, lo) && Balance(s, t) && Exec(s, run).log.accepted[t] <= n
    ensures var s' := Exec(s, run);
            && s.log.accepted[t] <= s'.log.accepted[t] && Limit(s', t) == Limit(s, t)
            && Ready(s', t, n) + ReturnsIn(s, run, t) + LostIn(s, t, n, lo) <= Ready(s, t, n) + LostIn(s', t, n, lo)
    decreases |run|
  {
    if run != [] {
      assert run[0] in run;
      RecordStep(s, run[0], t);
      BalanceStep(s, run[0], t);
      AcceptedGrows(Next(s, run[0]), run[1..], t);
      PaysStep(s, run[0], t, n, lo);
      PaysRun(Next(s, run[0]), run[1..], t, n, lo);
    }
  }

  lemma {:induction false} AcceptedGrows(s: State, run: seq<Action>, t: TaskId)
    requires IsRun(s, run)
    ensures s.log.accepted[t] <= Exec(s, run).log.accepted[t]
    decreases |run|
  {
    if run != [] {
      AcceptedGrows(Next(s, run[0]), run[1..], t);
    }
  }

  lemma NoReader(s: State, t: TaskId)
    requires InPool(s, t) == 0
    ensures From(s, t, Retries(s, t))
  {
    forall w | 0 <= w < |s.workers| ensures !Stands(s.workers[w], t, Read) {
      if Stands(s.workers[w], t, Read) {
        CrewHas(s.workers, w, t, Read);
        assert false;
      }
    }
  }

  lemma AtTheEnd(s: State, t: TaskId, n: nat, lo: int)
    requires s.log.accepted[t] == n
    ensures LostIn(s, t, n, lo) <= Ready(s, t, n) + LossSum(Span(Limit(s, t), lo), n)
  {
    forall y ensures Behind(s, t, n, y) <= n {
      ReadAboveFalls(s.workers, t, y, y);
    }
    LostAtMost(lo, Limit(s, t), y => Behind(s, t, n, y), n);
  }

  lemma AtTheStart(s: State, t: TaskId, n: nat)
    requires InPool(s, t) == 0 && s.log.accepted[t] == 0
    ensures Ready(s, t, n) == n && From(s, t, Retries(s, t)) && Grants(s.records, t) == Span(Limit(s, t), Retries(s, t))
  {
    NoReader(s, t);
  }

  lemma PaidInAll(s: State, run: seq<Action>, t: TaskId, s': State, n: nat, lo: int, e: nat)
    requires IsRun(s, run) && s' == Exec(s, run) && forall a | a in run :: !(a.Prepare? && a.t == t)
    requires InPool(s, t) == 0 && s.log.accepted[t] == 0 && Balance(s, t)
    requires n == s'.log.accepted[t] && lo == Retries(s, t) && e == Grants(s.records, t)
    ensures ReturnsIn(s, run, t) <= MaxReturns(n, e)
  {
    AtTheStart(s, t, n);
    PaysRun(s, run, t, n, lo);
    AtTheEnd(s', t, n, lo);
    MaxReturnsSum(n, e);
  }

  lemma NotYetInPool(capacity: nat, workers: nat, past: seq<Action>, t: TaskId)
    requires IsRun(Init(capacity, workers), past) && Exec(Init(capacity, workers), past).log.accepted[t] == 0
    ensures var s := Exec(Init(capacity, workers), past); Balance(s, t) && InPool(s, t) == 0
  {
    var s := Exec(Init(capacity, workers), past);
    SafeInit(capacity, workers);
    SafeRun(Init(capacity, workers), past);
    assert Balance(s, t);
    InPoolIs(s, t);
  }

  /** With no discipline but that nobody writes the record of t after its first submission, whoever submits it how
      often and when, and however the workers that have it interleave: the handler returns for t at most
      MaxReturns(n, e) times, where n submissions are accepted and the record allows e retries at first. With one
      submission that is e + 1. */
  lemma ReturnsAreBounded(capacity: nat, workers: nat, past: seq<Action>, run: seq<Action>, t: TaskId)
    requires IsRun(Init(capacity, workers), past) && Exec(Init(capacity, workers), past).log.accepted[t] == 0
    requires IsRun(Exec(Init(capacity, workers), past), run) && forall a | a in run :: !(a.Prepare? && a.t == t)
    ensures var s := Exec(Init(capacity, workers), past);
            ReturnsIn(s, run, t) <= MaxReturns(Exec(s, run).log.accepted[t], Grants(s.records, t))
  {
    var s := Exec(Init(capacity, workers), past);
    var s' := Exec(s, run);
    NotYetInPool(capacity, workers, past, t);
    PaidInAll(s, run, t, s', s'.log.accepted[t], Retries(s, t), Grants(s.records, t));
  }

  // The bound is reached

  lemma {:induction false} RunAppend(s: State, x: seq<Action>, y: seq<Action>, t: TaskId)
    requires IsRun(s, x) && IsRun(Exec(s, x), y)
    ensures IsRun(s, x + y) && Exec(s, x + y) == Exec(Exec(s, x), y)
    ensures ReturnsIn(s, x + y, t) == ReturnsIn(s, x, t) + ReturnsIn(Exec(s, x), y, t)
    decreases |x|
  {
    if x == [] {
      assert x + y == y;
    } else {
      assert (x + y)[0] == x[0] && (x + y)[1..] == x[1..] + y;
      RunAppend(Next(s, x[0]), x[1..], y, t);
    }
  }

  lemma OneStep(s: State, a: Action, t: TaskId)
    requires Enabled(s, a)
    ensures IsRun(s, [a]) && Exec(s, [a]) == Next(s, a) && ReturnsIn(s, [a], t) == if Returns(s, a, t) then 1 else 0
  {
    assert [a][1..] == [];
    assert IsRun(Next(s, a), []) && Exec(Next(s, a), []) == Next(s, a);
  }

  /** A run that only the pool makes, from s to s', with r returns of the handler for t. */
  ghost predicate Leads(s: State, run: seq<Action>, s': State, t: TaskId, r: nat) {
    && IsRun(s, run) && Exec(s, run) == s' && ReturnsIn(s, run, t) == r
    && forall a | a in run :: !ByClient(a)
  }

  lemma LeadsOn(s: State, x: seq<Action>, s1: State, r1: nat, y: seq<Action>, s2: State, r2: nat, t: TaskId)
    requires Leads(s, x, s1, t, r1) && Leads(s1, y, s2, t, r2)
    ensures Leads(s, x + y, s2, t, r1 + r2)
  {
    RunAppend(s, x, y, t);
  }

  lemma LeadsTwice(s: State, x: seq<Action>, s1: State, r1: nat, y: seq<Action>, s2: State, r2: nat,
                   z: seq<Action>, s3: State, t: TaskId)
    requires Leads(s, x, s1, t, r1) && Leads(s1, y, s2, t, r2) && Leads(s2, z, s3, t, 0)
    ensures Leads(s, x + y + z, s3, t, r1 + r2)
  {
    LeadsOn(s, x, s1, r1, y, s2, r2, t);
    LeadsOn(s, x + y, s2, r1 + r2, z, s3, 0, t);
  }

  lemma LeadsStep(s: State, a: Action, t: TaskId)
    requires Enabled(s, a) && !ByClient(a)
    ensures Leads(s, [a], Next(s, a), t, if Returns(s, a, t) then 1 else 0)
  {
    OneStep(s, a, t);
  }

  /** Nothing waits anywhere, and the workers from w on have t, with its handler or with a retry due. */
  ghost predicate Staged(s: State, w: nat, t: TaskId) {
    && t in s.records && s.records[t].kind in s.handlers
    && s.retry == s.sleeping == s.firing == []
    && w <= |s.workers|
    && forall i | w <= i < |s.workers| :: s.workers[i] == Handling(t) || s.workers[i] == Deciding(t)
  }

  /** The same pool, up to what its workers from w on do and the record of t says. */
  predicate SamePool(s: State, s': State, w: nat) {
    && s'.log.accepted == s.log.accepted && s'.handlers == s.handlers
    && |s'.workers| == |s.workers| && w <= |s.workers| && s'.workers[..w] == s.workers[..w]
  }

  /** What the worker of a staged task can go through by itself until its handler has failed again. */
  ghost predicate FailsAgain(s: State, w: nat, t: TaskId, s': State)
    requires t in s.records && w < |s.workers|
  {
    && SamePool(s, s', w)
    && s'.workers == s.workers[w := Failing(t, s.records[t].retries)]
    && s'.retry == s'.sleeping == s'.firing == []
    && t in s'.records && s'.records[t].kind == s.records[t].kind
    && s'.records[t].retries == s.records[t].retries && s'.records[t].maxRetries == s.records[t].maxRetries
  }

  lemma FailsFromHandler(s: State, w: nat, t: TaskId)
    requires Staged(s, w, t) && w < |s.workers| && s.workers[w] == Handling(t)
    ensures Leads(s, [HandlerErr(w)], Next(s, HandlerErr(w)), t, 1) && FailsAgain(s, w, t, Next(s, HandlerErr(w)))
  {
    LeadsStep(s, HandlerErr(w), t);
  }

  /** Worker w is granted the retry, and waits at its select. */
  lemma GrantAndLeave(s: State, w: nat, t: TaskId) returns (s': State)
    requires Staged(s, w, t) && w < |s.workers| && s.workers[w] == Deciding(t) && MayRetry(s.records[t])
    ensures Leads(s, [Decide(w)] + [Leave(w)], s', t, 0)
    ensures s' == s.(records := s.records[t := s.records[t].(status := Retry)], sleeping := [t],
                     workers := s.workers[w := Idle], active := s.active - 1)
  {
    var s1 := Next(s, Decide(w));
    s' := Next(s1, Leave(w));
    LeadsStep(s, Decide(w), t);
    LeadsStep(s1, Leave(w), t);
    LeadsOn(s, [Decide(w)], s1, 0, [Leave(w)], s', 0, t);
  }

  /** The timer fires and hands the task to that worker. */
  lemma FireAndTake(s: State, w: nat, t: TaskId) returns (s': State)
    requires s.sleeping == [t] && s.firing == [] && s.retry == [] && w < |s.workers| && s.workers[w].Idle?
    ensures Leads(s, [Fire(0)] + [RetryDirect(0, w)], s', t, 0)
    ensures s' == s.(sleeping := [], firing := [], workers := s.workers[w := Taken(t)])
  {
    var s1 := Next(s, Fire(0));
    s' := Next(s1, RetryDirect(0, w));
    LeadsStep(s, Fire(0), t);
    LeadsStep(s1, RetryDirect(0, w), t);
    LeadsOn(s, [Fire(0)], s1, 0, [RetryDirect(0, w)], s', 0, t);
  }

  /** The way of a granted retry back to the same worker. */
  lemma BackToHandler(s: State, w: nat, t: TaskId) returns (run: seq<Action>, s': State)
    requires Staged(s, w, t) && w < |s.workers| && s.workers[w] == Deciding(t) && MayRetry(s.records[t])
    ensures Leads(s, run, s', t, 0) && SamePool(s, s', w)
    ensures s'.workers == s.workers[w := Handling(t)]
    ensures s'.records == s.records[t := s.records[t].(status := Running)]
    ensures s'.retry == s'.sleeping == s'.firing == []
  {
    var s1 := GrantAndLeave(s, w, t);
    var s2 := FireAndTake(s1, w, t);
    var x, y := [Decide(w)] + [Leave(w)], [Fire(0)] + [RetryDirect(0, w)];
    s' := Next(s2, Start(w));
    LeadsStep(s2, Start(w), t);
    LeadsOn(s, x, s1, 0, y, s2, 0, t);
    LeadsOn(s, x + y, s2, 0, [Start(w)], s', 0, t);
    run := x + y + [Start(w)];
  }

  lemma FailsOnceMore(s: State, w: nat, t: TaskId) returns (run: seq<Action>, s': State)
    requires Staged(s, w, t) && w < |s.workers| && MayRetry(s.records[t])
    ensures Leads(s, run, s', t, 1) && FailsAgain(s, w, t, s')
  {
    if s.workers[w] == Handling(t) {
      FailsFromHandler(s, w, t);
      run, s' := [HandlerErr(w)], Next(s, HandlerErr(w));
    } else {
      var back, s1 := BackToHandler(s, w, t);
      FailsFromHandler(s1, w, t);
      s' := Next(s1, HandlerErr(w));
      run := back + [HandlerErr(w)];
      LeadsOn(s, back, s1, 0, [HandlerErr(w)], s', 1, t);
    }
  }

  /** All workers from w on have used up the retries of t. */
  ghost predicate UsedUp(s: State, w: nat, t: TaskId, s': State) {
    && SamePool(s, s', w) && Staged(s, w, t) && Staged(s', w, t)
    && s'.records[t].maxRetries == s.records[t].maxRetries
    && (forall i | w <= i < |s'.workers| :: s'.workers[i] == Deciding(t))
  }

  lemma OthersStaged(s: State, w: nat, t: TaskId, s1: State)
    requires Staged(s, w, t) && w < |s.workers| && FailsAgain(s, w, t, s1)
    ensures Staged(s1, w + 1, t) && |s1.workers| == |s.workers|
    ensures s1.records[t].retries == s.records[t].retries && s1.records[t].maxRetries == s.records[t].maxRetries
  {
  }

  lemma WriteUsesUp(s: State, w: nat, t: TaskId, s1: State, s2: State)
    requires Staged(s, w, t) && w < |s.workers| && FailsAgain(s, w, t, s1) && UsedUp(s1, w + 1, t, s2)
    ensures Enabled(s2, Store(w)) && UsedUp(s, w, t, Next(s2, Store(w)))
    ensures Next(s2, Store(w)).records[t].retries == s.records[t].retries + 1
  {
    assert s2.workers[w] == s2.workers[..w + 1][w] == s1.workers[..w + 1][w];
    assert s2.workers[..w] == s2.workers[..w + 1][..w] == s1.workers[..w + 1][..w];
  }

  /** The write of worker w, when the others have used up the retries. */
  lemma WriteBack(s: State, w: nat, t: TaskId, s1: State, s2: State) returns (s': State)
    requires Staged(s, w, t) && w < |s.workers| && FailsAgain(s, w, t, s1) && UsedUp(s1, w + 1, t, s2)
    ensures Leads(s2, [Store(w)], s', t, 0) && UsedUp(s, w, t, s')
    ensures s'.records[t].retries == s.records[t].retries + 1
  {
    WriteUsesUp(s, w, t, s1, s2);
    StoreLeads(s2, w, t);
    s' := Next(s2, Store(w));
  }

  lemma UsedUpTwice(s: State, w: nat, t: TaskId, s1: State, s2: State)
    requires UsedUp(s, w, t, s1) && UsedUp(s1, w, t, s2)
    ensures UsedUp(s, w, t, s2)
  {
  }

  lemma StoreLeads(s: State, w: nat, t: TaskId)
    requires Enabled(s, Store(w))
    ensures Leads(s, [Store(w)], Next(s, Store(w)), t, 0)
  {
    LeadsStep(s, Store(w), t);
  }

  /** Worker w fails, the others use up all retries, and then it writes what it has read. */
  lemma {:induction false} Round(s: State, w: nat, t: TaskId, e: nat) returns (run: seq<Action>, s': State)
    requires Staged(s, w, t) && w < |s.workers| && s.records[t].retries + e == s.records[t].maxRetries
    ensures Leads(s, run, s', t, 1 + MaxReturns(|s.workers| - w - 1, e)) && UsedUp(s, w, t, s')
    ensures s'.records[t].retries == s.records[t].retries + 1
    decreases |s.workers| - w, e, 0
  {
    var x, s1 := FailsOnceMore(s, w, t);
    OthersStaged(s, w, t, s1);
    var y, s2 := Schedule(s1, w + 1, t, e);
    run, s' := RoundEnds(s, w, t, x, s1, y, s2, MaxReturns(|s.workers| - w - 1, e));
  }

  lemma RoundEnds(s: State, w: nat, t: TaskId, x: seq<Action>, s1: State, y: seq<Action>, s2: State, r: nat)
    returns (run: seq<Action>, s': State)
    requires Staged(s, w, t) && w < |s.workers| && FailsAgain(s, w, t, s1) && UsedUp(s1, w + 1, t, s2)
    requires Leads(s, x, s1, t, 1) && Leads(s1, y, s2, t, r)
    ensures Leads(s, run, s', t, 1 + r) && UsedUp(s, w, t, s')
    ensures s'.records[t].retries == s.records[t].retries + 1
  {
    s' := WriteBack(s, w, t, s1, s2);
    LeadsTwice(s, x, s1, 1, y, s2, r, [Store(w)], s', t);
    run := x + y + [Store(w)];
  }

  lemma NobodyLeft(s: State, w: nat, t: TaskId)
    requires Staged(s, w, t) && w == |s.workers|
    ensures Leads(s, [], s, t, 0) && UsedUp(s, w, t, s)
  {
  }

  lemma SameSize(s: State, w: nat, t: TaskId, s': State)
    requires UsedUp(s, w, t, s')
    ensures |s'.workers| == |s.workers| && Staged(s', w, t) && s'.records[t].maxRetries == s.records[t].maxRetries
  {
  }

  /** The schedule that gets the most returns out of the workers from w on: rounds with one retry less each. */
  lemma {:induction false} Schedule(s: State, w: nat, t: TaskId, e: nat) returns (run: seq<Action>, s': State)
    requires Staged(s, w, t) && s.records[t].retries + e == s.records[t].maxRetries
    ensures Leads(s, run, s', t, MaxReturns(|s.workers| - w, e)) && UsedUp(s, w, t, s')
    decreases |s.workers| - w, e, 1
  {
    var n := |s.workers| - w;
    if n == 0 {
      MaxReturnsIs(n, e);
      NobodyLeft(s, w, t);
      return [], s;
    }
    MaxReturnsIs(n, e);
    var x, s1 := Round(s, w, t, e);
    if e == 0 {
      return x, s1;
    }
    run, s' := MoreRounds(s, w, t, e, x, s1, 1 + MaxReturns(n - 1, e));
  }

  lemma {:induction false} MoreRounds(s: State, w: nat, t: TaskId, e: nat, x: seq<Action>, s1: State, r: nat)
    returns (run: seq<Action>, s': State)
    requires Leads(s, x, s1, t, r) && UsedUp(s, w, t, s1)
    requires e > 0 && s1.records[t].retries + e - 1 == s1.records[t].maxRetries
    ensures Leads(s, run, s', t, r + MaxReturns(|s.workers| - w, e - 1)) && UsedUp(s, w, t, s')
    decreases |s.workers| - w, e, 0
  {
    SameSize(s, w, t, s1);
    var y, s2 := Schedule(s1, w, t, e - 1);
    UsedUpTwice(s, w, t, s1, s2);
    LeadsOn(s, x, s1, r, y, s2, MaxReturns(|s.workers| - w, e - 1), t);
    run, s' := x + y, s2;
  }

  // Submitting one task to all workers

  /** The first i workers of n have the task with the handler, the others wait. */
  ghost predicate Given(s: State, n: nat, i: nat, e: nat) {
    && 0 in s.records && s.records[0].kind in s.handlers
    && s.records[0].retries == 0 && s.records[0].maxRetries == e
    && s.tasks == s.retry == s.sleeping == s.firing == []
    && |s.workers| == n && i <= n && s.log.accepted[0] == i
    && (forall j | 0 <= j < i :: s.workers[j] == Handling(0))
    && (forall j | i <= j < n :: s.workers[j].Idle?)
  }

  /** A run without writes of the record of task 0 and without returns of its handler. */
  ghost predicate Enters(s: State, run: seq<Action>, s': State) {
    && IsRun(s, run) && Exec(s, run) == s' && ReturnsIn(s, run, 0) == 0
    && forall a | a in run :: !(a.Prepare? && a.t == 0)
  }

  lemma GiveOne(s: State, n: nat, i: nat, e: nat) returns (run: seq<Action>, s': State)
    requires Given(s, n, i, e) && i < n
    ensures Enters(s, run, s') && Given(s', n, i + 1, e)
  {
    var s1 := Next(s, SendDirect(0, i));
    s' := Next(s1, Start(i));
    OneStep(s, SendDirect(0, i), 0);
    OneStep(s1, Start(i), 0);
    RunAppend(s, [SendDirect(0, i)], [Start(i)], 0);
    run := [SendDirect(0, i)] + [Start(i)];
  }

  lemma {:induction false} GiveAll(s: State, n: nat, i: nat, e: nat) returns (run: seq<Action>, s': State)
    requires Given(s, n, i, e)
    ensures Enters(s, run, s') && Given(s', n, n, e)
    decreases n - i
  {
    if i == n {
      run, s' := [], s;
    } else {
      var x, s1 := GiveOne(s, n, i, e);
      var y, s2 := GiveAll(s1, n, i + 1, e);
      RunAppend(s, x, y, 0);
      run, s' := x + y, s2;
    }
  }

  /** Task 0 with e retries, created in a pool with n workers. */
  function Created(n: nat, e: nat): State {
    Next(Next(Init(0, n), Register(0)), Prepare(0, Task(0, Pending, 0, e)))
  }

  /** A run that submits task 0 n times and lets its handler return r times. */
  ghost predicate Reaches(s: State, run: seq<Action>, n: nat, r: nat) {
    && IsRun(s, run) && (forall a | a in run :: !(a.Prepare? && a.t == 0))
    && Exec(s, run).log.accepted[0] == n && ReturnsIn(s, run, 0) == r
  }

  /** The bound of ReturnsAreBounded is the best: for all numbers of submissions and retries some run reaches it. */
  lemma BoundIsReached(n: nat, e: nat)
    ensures IsRun(Init(0, n), [Register(0), Prepare(0, Task(0, Pending, 0, e))])
    ensures Exec(Init(0, n), [Register(0), Prepare(0, Task(0, Pending, 0, e))]) == Created(n, e)
    ensures Created(n, e).log.accepted[0] == 0 && Grants(Created(n, e).records, 0) == e
    ensures exists run :: Reaches(Created(n, e), run, n, MaxReturns(n, e))
  {
    var s := Created(n, e);
    CreatedBy(n, e);
    var x, s1 := GiveAll(s, n, 0, e);
    var y, s2 := Schedule(s1, 0, 0, e);
    RunAppend(s, x, y, 0);
    assert Reaches(s, x + y, n, MaxReturns(n, e));
  }

  lemma CreatedBy(n: nat, e: nat)
    ensures var run := [Register(0), Prepare(0, Task(0, Pending, 0, e))];
            IsRun(Init(0, n), run) && Exec(Init(0, n), run) == Created(n, e)
    ensures Given(Created(n, e), n, 0, e)
  {
    var s1 := Next(Init(0, n), Register(0));
    OneStep(Init(0, n), Register(0), 0);
    OneStep(s1, Prepare(0, Task(0, Pending, 0, e)), 0);
    RunAppend(Init(0, n), [Register(0)], [Prepare(0, Task(0, Pending, 0, e))], 0);
    assert [Register(0)] + [Prepare(0, Task(0, Pending, 0, e))] == [Register(0), Prepare(0, Task(0, Pending, 0, e))];
  }
}
