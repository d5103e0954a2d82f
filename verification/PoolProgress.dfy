/** Progress and termination of the pool: work that is left can always go on, and it cannot go on for ever. */
module PoolProgress {
  import opened PoolProtocol
  import opened PoolSafety

  /** Steps of the clients of the pool; every other step is taken by the pool itself, or is the one cancellation. */
  predicate ByClient(a: Action) {
    a.Prepare? || a.Register? || a.Send? || a.SendDirect?
  }

  // Termination

  function Span(limit: int, retries: int): nat {
    if retries < limit then limit - retries else 0
  }

  /** Retries that the record of t allows from now on. */
  function Grants(records: map<TaskId, Task>, t: TaskId): nat {
    if t in records then Span(records[t].maxRetries, records[t].retries) else 0
  }

  /** What one copy of a task with n copies may still cause, in handler returns: its own next one, and what follows. */
  function Claim(n: nat, grants: nat): nat
    decreases grants, 1
  {
    1 + Pledge(n, grants)
  }

  /** A worker that writes `Retries` may set it back to one above what it has read, and so give retries back to all. */
  function Pledge(n: nat, grants: nat): nat
    decreases grants, 0
  {
    if grants == 0 then 0 else n * Claim(n, grants - 1)
  }

  lemma {:induction false} ClaimGrows(n: nat, j: nat, k: nat)
    requires j <= k
    ensures Claim(n, j) <= Claim(n, k)
    decreases k
  {
    if 0 < j {
      ClaimGrows(n, j - 1, k - 1);
      Scaled(n, Claim(n, j - 1), Claim(n, k - 1));
    }
  }

  lemma Scaled(n: nat, x: nat, y: nat)
    requires x <= y
    ensures n * x <= n * y
  {
  }

  /** What the measure is reckoned from: how many copies of each task there may be, and the records. */
  datatype Books = Books(copies: TaskId -> nat, records: map<TaskId, Task>)

  function Left(b: Books, t: TaskId): nat {
    Claim(b.copies(t), Grants(b.records, t))
  }

  function Owed(b: Books, t: TaskId, seen: int): nat {
    if t in b.records then Pledge(b.copies(t), Span(b.records[t].maxRetries, seen)) else 0
  }

  function Pending(b: Books, t: TaskId): nat {
    if t in b.records && MayRetry(b.records[t]) then Left(b, t) else 0
  }

  function QueueWork(b: Books, xs: seq<TaskId>, phase: nat): nat {
    if xs == [] then 0 else QueueWork(b, xs[..|xs| - 1], phase) + 8 * Left(b, xs[|xs| - 1]) + phase
  }

  function WorkerWork(b: Books, w: Worker): nat {
    match w
    case Idle => 1
    case Taken(t) => 8 * Left(b, t) + 5
    case Handling(t) => 8 * Left(b, t) + 4
    case Failing(t, seen) => 8 * Owed(b, t, seen) + 11
    case Deciding(t) => 8 * Pending(b, t) + 10
    case Finishing(_, _) => 3
    case Leaving => 2
    case Exited => 0
  }

  function CrewWork(b: Books, ws: seq<Worker>): nat {
    if ws == [] then 0 else CrewWork(b, ws[..|ws| - 1]) + WorkerWork(b, ws[|ws| - 1])
  }

  function Measure(s: State, copies: TaskId -> nat): nat {
    var b := Books(copies, s.records);
    QueueWork(b, s.tasks, 5) + QueueWork(b, s.retry, 5) + QueueWork(b, s.firing, 6) + QueueWork(b, s.sleeping, 7)
    + CrewWork(b, s.workers) + s.unbumped + (if s.cancelled then 0 else 1)
  }

  /** No task has more copies than reckoned with. */
  ghost predicate Fits(s: State, copies: TaskId -> nat) {
    forall t :: Spots(s, t) <= copies(t)
  }

  lemma QueueWorkAppend(b: Books, xs: seq<TaskId>, x: TaskId, phase: nat)
    ensures QueueWork(b, xs + [x], phase) == QueueWork(b, xs, phase) + 8 * Left(b, x) + phase
  {
    assert (xs + [x])[..|xs|] == xs;
  }

  lemma {:induction false} QueueWorkWithout(b: Books, xs: seq<TaskId>, i: nat, phase: nat)
    requires i < |xs|
    ensures QueueWork(b, xs, phase) == QueueWork(b, Without(xs, i), phase) + 8 * Left(b, xs[i]) + phase
  {
    var n := |xs| - 1;
    if i == n {
      assert Without(xs, i) == xs[..n];
    } else {
      assert Without(xs, i) == Without(xs[..n], i) + [xs[n]];
      QueueWorkWithout(b, xs[..n], i, phase);
      QueueWorkAppend(b, Without(xs[..n], i), xs[n], phase);
    }
  }

  lemma {:induction false} CrewWorkUpdate(b: Books, ws: seq<Worker>, i: nat, w: Worker)
    requires i < |ws|
    ensures CrewWork(b, ws[i := w]) + WorkerWork(b, ws[i]) == CrewWork(b, ws) + WorkerWork(b, w)
  {
    var n, ws' := |ws| - 1, ws[i := w];
    if i == n {
      assert ws'[..n] == ws[..n];
    } else {
      assert ws'[..n] == ws[..n][i := w];
      CrewWorkUpdate(b, ws[..n], i, w);
    }
  }

  /** c for each of k copies. */
  function Times(c: nat, k: nat): nat {
    if k == 0 then 0 else Times(c, k - 1) + c
  }

  lemma {:induction false} TimesIs(c: nat, k: nat)
    ensures Times(c, k) == k * c
  {
    if k > 0 {
      TimesIs(c, k - 1);
    }
  }

  lemma {:induction false} TimesAdd(c: nat, j: nat, k: nat)
    ensures Times(c, j + k) == Times(c, j) + Times(c, k)
  {
    if k > 0 {
      TimesAdd(c, j, k - 1);
    }
  }

  lemma {:induction false} TimesZero(k: nat)
    ensures Times(0, k) == 0
  {
    if k > 0 {
      TimesZero(k - 1);
    }
  }

  /** Later books, in which only the copies of t may have more ahead of them, by at most c each. */
  ghost predicate Rises(b: Books, b': Books, t: TaskId, c: nat) {
    && (forall x :: Left(b', x) <= Left(b, x) + (if x == t then c else 0))
    && (forall x :: Pending(b', x) <= Pending(b, x) + (if x == t then c else 0))
    && (forall x, seen :: Owed(b', x, seen) <= Owed(b, x, seen))
  }

  lemma {:induction false} QueueWorkRises(b: Books, b': Books, t: TaskId, c: nat, xs: seq<TaskId>, phase: nat)
    requires Rises(b, b', t, c)
    ensures QueueWork(b', xs, phase) <= QueueWork(b, xs, phase) + 8 * Times(c, Occurs(xs, t))
  {
    if xs != [] {
      var x, before := xs[|xs| - 1], xs[..|xs| - 1];
      assert Left(b', x) <= Left(b, x) + (if x == t then c else 0);
      QueueWorkRises(b, b', t, c, before, phase);
    }
  }

  lemma WorkerWorkRises(b: Books, b': Books, t: TaskId, c: nat, w: Worker)
    requires Rises(b, b', t, c)
    ensures WorkerWork(b', w) <= WorkerWork(b, w) + (if Has(w, t) == 1 then 8 * c else 0)
  {
  }

  lemma {:induction false} CrewWorkRises(b: Books, b': Books, t: TaskId, c: nat, ws: seq<Worker>)
    requires Rises(b, b', t, c)
    ensures CrewWork(b', ws) <= CrewWork(b, ws) + 8 * Times(c, Holders(ws, t))
  {
    if ws != [] {
      WorkerWorkRises(b, b', t, c, ws[|ws| - 1]);
      CrewWorkRises(b, b', t, c, ws[..|ws| - 1]);
    }
  }

  lemma MeasureTake(s: State, copies: TaskId -> nat, a: Action)
    requires Enabled(s, a) && (a.TakeTask? || a.TakeRetry?)
    ensures Measure(Next(s, a), copies) < Measure(s, copies)
  {
    var b, from := Books(copies, s.records), if a.TakeTask? then s.tasks else s.retry;
    assert from[1..] == Without(from, 0);
    QueueWorkWithout(b, from, 0, 5);
    CrewWorkUpdate(b, s.workers, a.w, Taken(from[0]));
  }

  lemma MeasureFire(s: State, copies: TaskId -> nat, i: nat)
    requires Enabled(s, Fire(i))
    ensures Measure(Next(s, Fire(i)), copies) < Measure(s, copies)
  {
    var b := Books(copies, s.records);
    QueueWorkWithout(b, s.sleeping, i, 7);
    QueueWorkAppend(b, s.firing, s.sleeping[i], 6);
  }

  lemma MeasureSend(s: State, copies: TaskId -> nat, a: Action)
    requires Enabled(s, a) && (a.RetrySend? || a.RetryDrop?)
    ensures Measure(Next(s, a), copies) < Measure(s, copies)
  {
    var b := Books(copies, s.records);
    QueueWorkWithout(b, s.firing, a.i, 6);
    QueueWorkAppend(b, s.retry, s.firing[a.i], 5);
  }

  lemma MeasureDirect(s: State, copies: TaskId -> nat, i: nat, w: nat)
    requires Enabled(s, RetryDirect(i, w))
    ensures Measure(Next(s, RetryDirect(i, w)), copies) < Measure(s, copies)
  {
    var b := Books(copies, s.records);
    QueueWorkWithout(b, s.firing, i, 6);
    CrewWorkUpdate(b, s.workers, w, Taken(s.firing[i]));
  }

  /** Everything in the measure when worker w moves on and the copies of t may have up to c more ahead of them. */
  lemma WorkRises(s: State, b: Books, b': Books, w: nat, next: Worker, t: TaskId, c: nat)
    requires w < |s.workers| && Rises(b, b', t, c)
    ensures CrewWork(b', s.workers[w := next])
            <= CrewWork(b, s.workers) + WorkerWork(b', next) - WorkerWork(b, s.workers[w])
               + 8 * Times(c, Holders(s.workers[w := Exited], t))
    ensures QueueWork(b', s.tasks, 5) <= QueueWork(b, s.tasks, 5) + 8 * Times(c, Occurs(s.tasks, t))
    ensures QueueWork(b', s.retry, 5) <= QueueWork(b, s.retry, 5) + 8 * Times(c, Occurs(s.retry, t))
    ensures QueueWork(b', s.firing, 6) <= QueueWork(b, s.firing, 6) + 8 * Times(c, Occurs(s.firing, t))
    ensures QueueWork(b', s.sleeping, 7) <= QueueWork(b, s.sleeping, 7) + 8 * Times(c, Occurs(s.sleeping, t))
  {
    var gone := s.workers[w := Exited];
    assert gone[w := next] == s.workers[w := next];
    CrewWorkUpdate(b, s.workers, w, Exited);
    CrewWorkRises(b, b', t, c, gone);
    CrewWorkUpdate(b', gone, w, next);
    QueueWorkRises(b, b', t, c, s.tasks, 5);
    QueueWorkRises(b, b', t, c, s.retry, 5);
    QueueWorkRises(b, b', t, c, s.firing, 6);
    QueueWorkRises(b, b', t, c, s.sleeping, 7);
  }

  /** The same where nothing rises. */
  lemma WorkStays(s: State, b: Books, b': Books, w: nat, next: Worker)
    requires w < |s.workers| && Rises(b, b', 0, 0)
    ensures CrewWork(b', s.workers[w := next])
            <= CrewWork(b, s.workers) + WorkerWork(b', next) - WorkerWork(b, s.workers[w])
    ensures QueueWork(b', s.tasks, 5) <= QueueWork(b, s.tasks, 5)
    ensures QueueWork(b', s.retry, 5) <= QueueWork(b, s.retry, 5)
    ensures QueueWork(b', s.firing, 6) <= QueueWork(b, s.firing, 6)
    ensures QueueWork(b', s.sleeping, 7) <= QueueWork(b, s.sleeping, 7)
  {
    WorkRises(s, b, b', w, next, 0, 0);
    TimesZero(Holders(s.workers[w := Exited], 0));
    TimesZero(Occurs(s.tasks, 0));
    TimesZero(Occurs(s.retry, 0));
    TimesZero(Occurs(s.firing, 0));
    TimesZero(Occurs(s.sleeping, 0));
  }

  /** A write of the status of a task changes nothing in the books. */
  lemma StatusWritten(b: Books, b': Books, t: TaskId, status: Status)
    requires t in b.records && b' == Books(b.copies, b.records[t := b.records[t].(status := status)])
    ensures Rises(b, b', 0, 0) && Left(b', t) == Left(b, t) && Pending(b', t) == Pending(b, t)
  {
  }

  lemma WorkerMoves(s: State, s': State, copies: TaskId -> nat, w: nat, next: Worker)
    requires w < |s.workers| && s'.workers == s.workers[w := next]
    requires s'.tasks == s.tasks && s'.retry == s.retry && s'.firing == s.firing && s'.sleeping == s.sleeping
    requires s'.unbumped == s.unbumped && s'.cancelled == s.cancelled
    requires var b, b' := Books(copies, s.records), Books(copies, s'.records);
             Rises(b, b', 0, 0) && WorkerWork(b', next) < WorkerWork(b, s.workers[w])
    ensures Measure(s', copies) < Measure(s, copies)
  {
    WorkStays(s, Books(copies, s.records), Books(copies, s'.records), w, next);
  }

  lemma MeasureWork(s: State, copies: TaskId -> nat, a: Action)
    requires Enabled(s, a) && (a.HandlerErr? || a.Count? || a.Leave? || a.Exit?)
    ensures Measure(Next(s, a), copies) < Measure(s, copies)
  {
    var next := if a.HandlerErr? then Failing(s.workers[a.w].task, s.records[s.workers[a.w].task].retries)
                else if a.Count? then Leaving else if a.Leave? then Idle else Exited;
    WorkerMoves(s, Next(s, a), copies, a.w, next);
  }

  lemma MeasureHandling(s: State, copies: TaskId -> nat, a: Action)
    requires Enabled(s, a) && (a.Start? || a.NoHandler? || a.HandlerOk?)
    ensures Measure(Next(s, a), copies) < Measure(s, copies)
  {
    var s', t := Next(s, a), s.workers[a.w].task;
    StatusWritten(Books(copies, s.records), Books(copies, s'.records), t, s'.records[t].status);
    WorkerMoves(s, s', copies, a.w, s'.workers[a.w]);
  }

  lemma MeasureSleep(s: State, s': State, copies: TaskId -> nat, w: nat, t: TaskId)
    requires w < |s.workers| && s.workers[w] == Deciding(t) && s'.workers == s.workers[w := Leaving]
    requires s'.tasks == s.tasks && s'.retry == s.retry && s'.firing == s.firing && s'.sleeping == s.sleeping + [t]
    requires s'.unbumped == s.unbumped && s'.cancelled == s.cancelled
    requires t in s.records && MayRetry(s.records[t])
    requires s'.records == s.records[t := s.records[t].(status := Retry)]
    ensures Measure(s', copies) < Measure(s, copies)
  {
    var b, b' := Books(copies, s.records), Books(copies, s'.records);
    StatusWritten(b, b', t, Retry);
    WorkStays(s, b, b', w, Leaving);
    QueueWorkAppend(b', s.sleeping, t, 7);
  }

  lemma MeasureDecide(s: State, copies: TaskId -> nat, w: nat, t: TaskId, s': State)
    requires Enabled(s, Decide(w)) && s' == Next(s, Decide(w)) && t == s.workers[w].task
    ensures Measure(s', copies) < Measure(s, copies)
  {
    if MayRetry(s.records[t]) {
      MeasureSleep(s, s', copies, w, t);
    } else {
      StatusWritten(Books(copies, s.records), Books(copies, s'.records), t, Failed);
      WorkerMoves(s, s', copies, w, Finishing(t, false));
    }
  }

  lemma StoreRises(s: State, copies: TaskId -> nat, w: nat, c: nat)
    requires Enabled(s, Store(w))
    requires var record, seen := s.records[s.workers[w].task], s.workers[w].seen;
             c == if seen < record.maxRetries then Claim(copies(s.workers[w].task), record.maxRetries - seen - 1) else 0
    ensures Rises(Books(copies, s.records), Books(copies, Next(s, Store(w)).records), s.workers[w].task, c)
  {
    var b, b' := Books(copies, s.records), Books(copies, Next(s, Store(w)).records);
    var t := s.workers[w].task;
    ClaimGrows(copies(t), 0, Grants(s.records, t));
    forall x ensures Left(b', x) <= Left(b, x) + (if x == t then c else 0) {
    }
    forall x ensures Pending(b', x) <= Pending(b, x) + (if x == t then c else 0) {
    }
  }

  lemma TimesSum(c: nat, k1: nat, k2: nat, k3: nat, k4: nat, k5: nat)
    ensures Times(c, k1) + Times(c, k2) + Times(c, k3) + Times(c, k4) + Times(c, k5) == Times(c, k1 + k2 + k3 + k4 + k5)
  {
    TimesAdd(c, k1, k2);
    TimesAdd(c, k1 + k2, k3);
    TimesAdd(c, k1 + k2 + k3, k4);
    TimesAdd(c, k1 + k2 + k3 + k4, k5);
  }

  /** What the copies of a task other than its writer get, and the writer. */
  lemma Shares(c: nat, n: nat, k: nat)
    requires k < n
    ensures Times(c, k) + c <= n * c
  {
    TimesAdd(c, k + 1, n - k - 1);
    TimesIs(c, n);
  }

  /** What a worker gives up when it writes `Retries`. */
  lemma StorePays(s: State, copies: TaskId -> nat, w: nat, c: nat)
    requires Enabled(s, Store(w))
    requires var record, seen := s.records[s.workers[w].task], s.workers[w].seen;
             c == if seen < record.maxRetries then Claim(copies(s.workers[w].task), record.maxRetries - seen - 1) else 0
    ensures var t := s.workers[w].task;
            && WorkerWork(Books(copies, s.records), s.workers[w]) == 8 * (copies(t) * c) + 11
            && WorkerWork(Books(copies, Next(s, Store(w)).records), Deciding(t)) == 8 * c + 10
  {
  }

  /** A worker that writes `Retries` pays for all copies of its task. */
  lemma MeasureStore(s: State, copies: TaskId -> nat, w: nat, t: TaskId, c: nat, s': State)
    requires Enabled(s, Store(w)) && s' == Next(s, Store(w)) && t == s.workers[w].task && Fits(s, copies)
    requires var record, seen := s.records[t], s.workers[w].seen;
             c == if seen < record.maxRetries then Claim(copies(t), record.maxRetries - seen - 1) else 0
    ensures Measure(s', copies) < Measure(s, copies)
  {
    StoreRises(s, copies, w, c);
    StorePays(s, copies, w, c);
    StoreShares(s, copies, w, t, c);
    WorkRises(s, Books(copies, s.records), Books(copies, s'.records), w, Deciding(t), t, c);
  }

  lemma StoreShares(s: State, copies: TaskId -> nat, w: nat, t: TaskId, c: nat)
    requires w < |s.workers| && Has(s.workers[w], t) == 1 && Fits(s, copies)
    ensures Times(c, Occurs(s.tasks, t)) + Times(c, Occurs(s.retry, t)) + Times(c, Occurs(s.firing, t))
            + Times(c, Occurs(s.sleeping, t)) + Times(c, Holders(s.workers[w := Exited], t)) + c
            <= copies(t) * c
  {
    var others := Holders(s.workers[w := Exited], t);
    HoldersUpdate(s.workers, w, Exited, t);
    assert Spots(s, t) <= copies(t);
    TimesSum(c, Occurs(s.tasks, t), Occurs(s.retry, t), Occurs(s.firing, t), Occurs(s.sleeping, t), others);
    Shares(c, copies(t),
           Occurs(s.tasks, t) + Occurs(s.retry, t) + Occurs(s.firing, t) + Occurs(s.sleeping, t) + others);
  }

  /** The log is written only. */
  lemma NextIgnoresLog(s: State, log: History, a: Action)
    requires Enabled(s, a)
    ensures Next(s.(log := log), a).(log := s.log) == Next(s, a).(log := s.log)
  {
    if InWork(a) || a.Decide? || a.Count? {
      WorkIgnoresLog(s, log, a);
    }
  }

  lemma WorkIgnoresLog(s: State, log: History, a: Action)
    requires Enabled(s, a) && (InWork(a) || a.Decide? || a.Count?)
    ensures Next(s.(log := log), a).(log := s.log) == Next(s, a).(log := s.log)
  {
  }

  lemma SpotsIgnoreLog(s: State, log: History, t: TaskId)
    ensures Spots(s.(log := log), t) == Spots(s, t)
  {
  }

  /** No step but a client's makes copies of a task. */
  lemma SpotsShrink(s: State, a: Action, t: TaskId)
    requires Enabled(s, a) && !ByClient(a)
    ensures Spots(Next(s, a), t) <= Spots(s, t)
  {
    var none: multiset<TaskId> := multiset{};
    var log := History(none[t := Spots(s, t)], none, none, none, map[]);
    NextIgnoresLog(s, log, a);
    SpotsIgnoreLog(Next(s.(log := log), a), s.log, t);
    SpotsIgnoreLog(Next(s, a), s.log, t);
    BalanceStep(s.(log := log), a, t);
    AcceptsNothing(s.(log := log), a);
  }

  lemma AcceptsNothing(s: State, a: Action)
    requires Enabled(s, a) && !ByClient(a)
    ensures Next(s, a).log.accepted == s.log.accepted
  {
  }

  /** Every step that is not a client's makes the measure smaller, also when several workers have the same task and
      write its `Retries` in any order. */
  lemma MeasureStep(s: State, copies: TaskId -> nat, a: Action)
    requires Enabled(s, a) && !ByClient(a) && Fits(s, copies)
    ensures Measure(Next(s, a), copies) < Measure(s, copies) && Fits(Next(s, a), copies)
  {
    forall t ensures Spots(Next(s, a), t) <= copies(t) {
      SpotsShrink(s, a, t);
      assert Spots(s, t) <= copies(t);
    }
    if a.TakeTask? || a.TakeRetry? {
      MeasureTake(s, copies, a);
    } else if a.Fire? {
      MeasureFire(s, copies, a.i);
    } else if a.RetryDirect? {
      MeasureDirect(s, copies, a.i, a.w);
    } else if a.RetrySend? || a.RetryDrop? {
      MeasureSend(s, copies, a);
    } else if a.HandlerErr? || a.Count? || a.Leave? || a.Exit? {
      MeasureWork(s, copies, a);
    } else if a.Start? || a.NoHandler? || a.HandlerOk? {
      MeasureHandling(s, copies, a);
    } else if a.Decide? {
      MeasureDecide(s, copies, a.w, s.workers[a.w].task, Next(s, a));
    } else if a.Store? {
      var t, seen := s.workers[a.w].task, s.workers[a.w].seen;
      var limit := s.records[t].maxRetries;
      var c := if seen < limit then Claim(copies(t), limit - seen - 1) else 0;
      MeasureStore(s, copies, a.w, t, c, Next(s, a));
    }
  }

  lemma {:induction false} RunShrinks(s: State, copies: TaskId -> nat, run: seq<Action>)
    requires IsRun(s, run) && (forall a | a in run :: !ByClient(a)) && Fits(s, copies)
    ensures |run| + Measure(Exec(s, run), copies) <= Measure(s, copies)
    decreases |run|
  {
    if run != [] {
      assert run[0] in run;
      MeasureStep(s, copies, run[0]);
      RunShrinks(Next(s, run[0]), copies, run[1..]);
    }
  }

  /** A bound on the steps that can follow without new submissions. */
  function StepsLeft(s: State): nat {
    Measure(s, t => Spots(s, t))
  }

  /** Without new submissions the pool comes to rest: no run from s has more than StepsLeft(s) steps. */
  lemma RunsAreBounded(s: State, run: seq<Action>)
    requires IsRun(s, run) && forall a | a in run :: !ByClient(a)
    ensures |run| <= StepsLeft(s)
  {
    RunShrinks(s, t => Spots(s, t), run);
  }

  // Progress

  /** Only a client, or a cancellation, could move the pool on. */
  ghost predicate AtRest(s: State) {
    forall a: Action | !ByClient(a) && !a.Cancel? :: !Enabled(s, a)
  }

  lemma HolderKnown(s: State, w: nat)
    requires Safe(s) && w < |s.workers| && Of(s.workers[w]) != multiset{}
    ensures s.workers[w].task in s.records
  {
    var t := s.workers[w].task;
    HoldersUpdate(s.workers, w, Idle, t);
    assert Balance(s, t);
  }

  /** What a worker that is not at its select does next, with a handler that succeeds. */
  function NextOf(s: State, w: nat): Action
    requires w < |s.workers|
  {
    match s.workers[w]
    case Idle => Exit(w)
    case Taken(_) => Start(w)
    case Handling(t) => if t in s.records && s.records[t].kind in s.handlers then HandlerOk(w) else NoHandler(w)
    case Failing(_, _) => Store(w)
    case Deciding(_) => Decide(w)
    case Finishing(_, _) => Count(w)
    case Leaving => Leave(w)
    case Exited => Exit(w)
  }

  lemma WorkerGoesOn(s: State, w: nat)
    requires Safe(s) && w < |s.workers| && !s.workers[w].Idle? && !s.workers[w].Exited?
    ensures Enabled(s, NextOf(s, w))
  {
    if Of(s.workers[w]) != multiset{} {
      HolderKnown(s, w);
    }
  }

  lemma RestingWorker(s: State, w: nat)
    requires Safe(s) && AtRest(s) && w < |s.workers|
    ensures if s.cancelled then s.workers[w].Exited? else s.workers[w].Idle? || s.workers[w].Exited?
  {
    if !s.workers[w].Idle? && !s.workers[w].Exited? {
      WorkerGoesOn(s, w);
    }
    assert !Enabled(s, NextOf(s, w));
  }

  lemma RestingTimers(s: State)
    requires AtRest(s)
    requires s.cancelled || exists w: nat :: w < |s.workers| && s.workers[w].Idle?
    ensures s.sleeping == [] && (s.cancelled || |s.retry| == 0 ==> s.firing == [])
    ensures s.unbumped == 0
  {
    assert !Enabled(s, Fire(0)) && !Enabled(s, RetryDrop(0)) && !Enabled(s, Bump);
    if !s.cancelled {
      var w: nat :| w < |s.workers| && s.workers[w].Idle?;
      assert !Enabled(s, RetryDirect(0, w));
    }
  }

  /** Deadlock freedom: as long as the pool is not cancelled and has a worker, it can only come to rest with every
      accepted task completed or failed, whatever the queue size, zero included, and then the counters agree. */
  lemma RestMeansDrained(s: State)
    requires Safe(s) && AtRest(s) && !s.cancelled && |s.workers| > 0
    ensures Live(s) == multiset{} && s.log.accepted == s.log.done + s.log.dead
    ensures s.queued == s.completed + s.failed && s.active == 0
  {
    forall w: nat | w < |s.workers| ensures s.workers[w].Idle? {
      RestingWorker(s, w);
      assert Open(s);
    }
    AllIdle(s.workers);
    assert !Enabled(s, TakeTask(0)) && !Enabled(s, TakeRetry(0));
    RestingTimers(s);
    assert forall t: TaskId :: Balance(s, t);
    forall t: TaskId ensures s.log.accepted[t] == (s.log.done + s.log.dead)[t] {
      assert Balance(s, t);
    }
    Sizes(s.log.accepted, multiset{}, s.log.done, s.log.dead, multiset{});
  }

  /** Cancelled and at rest: every worker has exited, no timer is left, and what was accepted but not run is exactly
      what timers dropped plus what is stranded in the two channels. */
  lemma RestAfterCancel(s: State)
    requires Safe(s) && AtRest(s) && s.cancelled
    ensures AllExited(s) && s.sleeping == [] && s.firing == [] && s.active == 0
    ensures s.queued == s.completed + s.failed + |s.log.dropped| + |s.tasks| + |s.retry|
  {
    forall w: nat | w < |s.workers| ensures s.workers[w].Exited? {
      RestingWorker(s, w);
    }
    AllIdle(s.workers);
    RestingTimers(s);
    forall t: TaskId
      ensures s.log.accepted[t] == (multiset(s.tasks + s.retry) + s.log.done + s.log.dead + s.log.dropped)[t]
    {
      assert Balance(s, t);
      OccursIn(s.tasks, t);
      OccursIn(s.retry, t);
    }
    Sizes(s.log.accepted, multiset(s.tasks + s.retry), s.log.done, s.log.dead, s.log.dropped);
  }

  lemma {:induction false} Steady(s: State, run: seq<Action>)
    requires IsRun(s, run) && Cancel !in run
    ensures var s' := Exec(s, run); s'.cancelled == s.cancelled && |s'.workers| == |s.workers|
    decreases |run|
  {
    if run != [] {
      assert run[0] in run;
      Steady(Next(s, run[0]), run[1..]);
    }
  }

  /** Liveness: stop submitting after any run, do not cancel, and let the pool go on in any order. It stops within a
      number of steps fixed by the state, and wherever it can go no further every accepted task is settled. */
  lemma EveryScheduleDrains(capacity: nat, workers: nat, past: seq<Action>, rest: seq<Action>)
    requires workers > 0 && IsRun(Init(capacity, workers), past)
    requires Cancel !in past && Cancel !in rest
    requires IsRun(Exec(Init(capacity, workers), past), rest) && forall a | a in rest :: !ByClient(a)
    ensures |rest| <= StepsLeft(Exec(Init(capacity, workers), past))
    ensures var s := Exec(Exec(Init(capacity, workers), past), rest);
            AtRest(s) ==> && s.log.accepted == s.log.done + s.log.dead
                          && s.queued == s.completed + s.failed && s.active == 0
  {
    var s0 := Init(capacity, workers);
    var s1 := Exec(s0, past);
    SafeInit(capacity, workers);
    SafeRun(s0, past);
    SafeRun(s1, rest);
    Steady(s0, past);
    Steady(s1, rest);
    RunsAreBounded(s1, rest);
    if AtRest(Exec(s1, rest)) {
      RestMeansDrained(Exec(s1, rest));
    }
  }

  lemma {:induction false} StaysCancelled(s: State, run: seq<Action>)
    requires IsRun(s, run) && s.cancelled
    ensures Exec(s, run).cancelled
    decreases |run|
  {
    if run != [] {
      StaysCancelled(Next(s, run[0]), run[1..]);
    }
  }

  /** Shutdown returns: cancel after any run, stop submitting, and let the pool go on in any order. It stops within a
      number of steps fixed by the state, and wherever it can go no further all workers have exited; what was
      accepted and not settled is what timers dropped and what is stranded in the two channels. */
  lemma EveryShutdownReturns(capacity: nat, workers: nat, past: seq<Action>, rest: seq<Action>)
    requires IsRun(Init(capacity, workers), past) && Exec(Init(capacity, workers), past).cancelled
    requires IsRun(Exec(Init(capacity, workers), past), rest) && forall a | a in rest :: !ByClient(a)
    ensures |rest| <= StepsLeft(Exec(Init(capacity, workers), past))
    ensures var s := Exec(Exec(Init(capacity, workers), past), rest);
            AtRest(s) ==> && AllExited(s) && s.sleeping == [] && s.firing == [] && s.active == 0
                          && s.queued == s.completed + s.failed + |s.log.dropped| + |s.tasks| + |s.retry|
  {
    var s0 := Init(capacity, workers);
    var s1 := Exec(s0, past);
    SafeInit(capacity, workers);
    SafeRun(s0, past);
    SafeRun(s1, rest);
    StaysCancelled(s1, rest);
    RunsAreBounded(s1, rest);
    if AtRest(Exec(s1, rest)) {
      RestAfterCancel(Exec(s1, rest));
    }
  }
}
