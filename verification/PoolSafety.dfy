/** What every step of the pool protocol keeps, and what therefore holds in every interleaving. */
module PoolSafety {
  import opened PoolProtocol

  predicate Balance(s: State, t: TaskId) {
    s.log.accepted[t] == Spots(s, t) + s.log.done[t] + s.log.dead[t] + s.log.dropped[t]
  }

  function Busy(ws: seq<Worker>): nat {
    if ws == [] then 0 else Busy(ws[..|ws| - 1]) + Weight(ws[|ws| - 1])
  }

  /** 1 for a worker between the increment of `active` and its deferred decrement. */
  function Weight(w: Worker): nat {
    if w.Handling? || w.Failing? || w.Deciding? || w.Finishing? || w.Leaving? then 1 else 0
  }

  predicate Tallies(s: State) {
    && s.completed == |s.log.done|
    && s.failed == |s.log.dead|
    && s.queued + s.unbumped == |s.log.accepted|
  }

  predicate ActiveCount(s: State) {
    s.active == Busy(s.workers)
  }

  predicate Room(s: State) {
    |s.tasks| <= s.capacity && |s.retry| <= s.capacity
  }

  /** Dropping a task and leaving the worker loop need the cancellation. */
  ghost predicate Open(s: State) {
    !s.cancelled ==> s.log.dropped == multiset{} && forall w | 0 <= w < |s.workers| :: !s.workers[w].Exited?
  }

  ghost predicate Known(s: State) {
    forall t | s.log.accepted[t] > 0 :: t in s.records
  }

  ghost predicate Safe(s: State) {
    (forall t: TaskId :: Balance(s, t)) && Tallies(s) && ActiveCount(s) && Room(s) && Open(s) && Known(s)
  }

  // One step

  lemma {:induction false} BusyUpdate(ws: seq<Worker>, i: nat, w: Worker)
    requires i < |ws|
    ensures Busy(ws[i := w]) + Weight(ws[i]) == Busy(ws) + Weight(w)
  {
    var n, ws' := |ws| - 1, ws[i := w];
    if i == n {
      assert ws'[..n] == ws[..n];
    } else {
      assert ws'[..n] == ws[..n][i := w];
      BusyUpdate(ws[..n], i, w);
    }
  }

  lemma BalanceClient(s: State, a: Action, t: TaskId)
    requires Enabled(s, a) && Balance(s, t)
    requires a.Prepare? || a.Register? || a.Send? || a.SendDirect? || a.Bump? || a.Cancel?
    ensures Balance(Next(s, a), t)
  {
    if a.Send? {
      OccursAppend(s.tasks, a.t, t);
    } else if a.SendDirect? {
      HoldersUpdate(s.workers, a.w, Taken(a.t), t);
    }
  }

  lemma BalanceTake(s: State, a: Action, t: TaskId)
    requires Enabled(s, a) && Balance(s, t) && (a.TakeTask? || a.TakeRetry?)
    ensures Balance(Next(s, a), t)
  {
    var from := if a.TakeTask? then s.tasks else s.retry;
    assert from[1..] == Without(from, 0);
    OccursWithout(from, 0, t);
    HoldersUpdate(s.workers, a.w, Taken(from[0]), t);
  }

  /** A worker puts its task to sleep and lets go of it. */
  lemma BalanceSleep(s: State, s': State, w: nat, x: TaskId, t: TaskId)
    requires Balance(s, t) && w < |s.workers| && s.workers[w] == Deciding(x)
    requires s'.tasks == s.tasks && s'.retry == s.retry && s'.firing == s.firing
    requires s'.sleeping == s.sleeping + [x] && s'.workers == s.workers[w := Leaving]
    requires s'.log.accepted == s.log.accepted && s'.log.done == s.log.done
    requires s'.log.dead == s.log.dead && s'.log.dropped == s.log.dropped
    ensures Balance(s', t)
  {
    HoldersUpdate(s.workers, w, Leaving, t);
    OccursAppend(s.sleeping, x, t);
  }

  /** A worker changes its state and keeps its task. */
  lemma BalanceKeep(s: State, s': State, w: nat, next: Worker, t: TaskId)
    requires Balance(s, t) && w < |s.workers| && Has(next, t) == Has(s.workers[w], t)
    requires s'.tasks == s.tasks && s'.retry == s.retry && s'.firing == s.firing && s'.sleeping == s.sleeping
    requires s'.workers == s.workers[w := next]
    requires s'.log.accepted == s.log.accepted && s'.log.done == s.log.done
    requires s'.log.dead == s.log.dead && s'.log.dropped == s.log.dropped
    ensures Balance(s', t)
  {
    HoldersUpdate(s.workers, w, next, t);
  }

  lemma BalanceDecide(s: State, w: nat, t: TaskId)
    requires Enabled(s, Decide(w)) && Balance(s, t)
    ensures Balance(Next(s, Decide(w)), t)
  {
    var x := s.workers[w].task;
    if MayRetry(s.records[x]) {
      BalanceSleep(s, Next(s, Decide(w)), w, x, t);
    } else {
      BalanceKeep(s, Next(s, Decide(w)), w, Finishing(x, false), t);
    }
  }

  /** A worker counts its task as completed or failed and lets go of it. */
  lemma BalanceSettle(s: State, s': State, w: nat, x: TaskId, ok: bool, t: TaskId)
    requires Balance(s, t) && w < |s.workers| && s.workers[w] == Finishing(x, ok)
    requires s'.tasks == s.tasks && s'.retry == s.retry && s'.firing == s.firing && s'.sleeping == s.sleeping
    requires s'.workers == s.workers[w := Leaving]
    requires s'.log == if ok then s.log.(done := s.log.done + multiset{x}) else s.log.(dead := s.log.dead + multiset{x})
    ensures Balance(s', t)
  {
    HoldersUpdate(s.workers, w, Leaving, t);
  }

  lemma BalanceCount(s: State, w: nat, t: TaskId)
    requires Enabled(s, Count(w)) && Balance(s, t)
    ensures Balance(Next(s, Count(w)), t)
  {
    BalanceSettle(s, Next(s, Count(w)), w, s.workers[w].task, s.workers[w].ok, t);
  }

  /** The steps of a worker that neither take a task nor let go of one. */
  predicate InWork(a: Action) {
    a.Start? || a.NoHandler? || a.HandlerOk? || a.HandlerErr? || a.Store? || a.Leave? || a.Exit?
  }

  lemma BalanceWork(s: State, a: Action, t: TaskId)
    requires Enabled(s, a) && Balance(s, t) && InWork(a)
    ensures Balance(Next(s, a), t)
  {
    BalanceKeep(s, Next(s, a), a.w, Next(s, a).workers[a.w], t);
  }

  lemma BalanceTimer(s: State, a: Action, t: TaskId)
    requires Enabled(s, a) && Balance(s, t) && (a.Fire? || a.RetrySend? || a.RetryDirect? || a.RetryDrop?)
    ensures Balance(Next(s, a), t)
  {
    var from := if a.Fire? then s.sleeping else s.firing;
    OccursWithout(from, a.i, t);
    if a.Fire? {
      OccursAppend(s.firing, from[a.i], t);
    } else if a.RetrySend? {
      OccursAppend(s.retry, from[a.i], t);
    } else if a.RetryDirect? {
      HoldersUpdate(s.workers, a.w, Taken(from[a.i]), t);
    }
  }

  lemma BalanceStep(s: State, a: Action, t: TaskId)
    requires Enabled(s, a) && Balance(s, t)
    ensures Balance(Next(s, a), t)
  {
    if a.Fire? || a.RetrySend? || a.RetryDirect? || a.RetryDrop? {
      BalanceTimer(s, a, t);
    } else if a.TakeTask? || a.TakeRetry? {
      BalanceTake(s, a, t);
    } else if a.Decide? {
      BalanceDecide(s, a.w, t);
    } else if a.Count? {
      BalanceCount(s, a.w, t);
    } else if a.Prepare? || a.Register? || a.Send? || a.SendDirect? || a.Bump? || a.Cancel? {
      BalanceClient(s, a, t);
    } else {
      BalanceWork(s, a, t);
    }
  }

  lemma TalliesStep(s: State, a: Action)
    requires Enabled(s, a) && Tallies(s)
    ensures Tallies(Next(s, a))
  {
    if a.Count? {
      TalliesCount(s, a.w);
    } else if InWork(a) || a.Decide? {
      TalliesWork(s, a);
    }
  }

  lemma TalliesWork(s: State, a: Action)
    requires Enabled(s, a) && Tallies(s) && (InWork(a) || a.Decide?)
    ensures Tallies(Next(s, a))
  {
  }

  lemma TalliesCount(s: State, w: nat)
    requires Enabled(s, Count(w)) && Tallies(s)
    ensures Tallies(Next(s, Count(w)))
  {
  }

  lemma ActiveCountWork(s: State, a: Action)
    requires Enabled(s, a) && ActiveCount(s)
    requires InWork(a) || a.Decide? || a.Count?
    ensures ActiveCount(Next(s, a))
  {
    BusyUpdate(s.workers, a.w, Next(s, a).workers[a.w]);
  }

  lemma ActiveCountStep(s: State, a: Action)
    requires Enabled(s, a) && ActiveCount(s)
    ensures ActiveCount(Next(s, a))
  {
    if a.SendDirect? || a.TakeTask? || a.TakeRetry? || a.RetryDirect? {
      BusyUpdate(s.workers, a.w, Taken(Next(s, a).workers[a.w].task));
    } else if InWork(a) || a.Decide? || a.Count? {
      ActiveCountWork(s, a);
    }
  }

  lemma RoomStep(s: State, a: Action)
    requires Enabled(s, a) && Room(s)
    ensures Room(Next(s, a))
  {
  }

  lemma OpenStep(s: State, a: Action)
    requires Enabled(s, a) && Open(s)
    ensures Open(Next(s, a))
  {
    if InWork(a) {
      OpenInWork(s, a);
    }
  }

  lemma OpenInWork(s: State, a: Action)
    requires Enabled(s, a) && Open(s) && InWork(a)
    ensures Open(Next(s, a))
  {
  }

  lemma KnownStep(s: State, a: Action)
    requires Enabled(s, a) && Known(s)
    ensures Known(Next(s, a))
  {
    if InWork(a) || a.Decide? || a.Prepare? {
      assert s.records.Keys <= Next(s, a).records.Keys;
    }
  }

  lemma SafeStep(s: State, a: Action)
    requires Enabled(s, a) && Safe(s)
    ensures Safe(Next(s, a))
  {
    forall t: TaskId ensures Balance(Next(s, a), t) {
      assert Balance(s, t);
      BalanceStep(s, a, t);
    }
    TalliesStep(s, a);
    ActiveCountStep(s, a);
    RoomStep(s, a);
    OpenStep(s, a);
    KnownStep(s, a);
  }

  // Every run

  lemma {:induction false} SafeRun(s: State, run: seq<Action>)
    requires Safe(s) && IsRun(s, run)
    ensures Safe(Exec(s, run))
    decreases |run|
  {
    if run != [] {
      SafeStep(s, run[0]);
      SafeRun(Next(s, run[0]), run[1..]);
    }
  }

  lemma {:induction false} AllIdle(ws: seq<Worker>)
    requires forall w | 0 <= w < |ws| :: ws[w].Idle? || ws[w].Exited?
    ensures Held(ws) == multiset{} && Busy(ws) == 0 && forall t :: Holders(ws, t) == 0
  {
    if ws != [] {
      AllIdle(ws[..|ws| - 1]);
    }
  }

  lemma SafeInit(capacity: nat, workers: nat)
    ensures Safe(Init(capacity, workers))
  {
    AllIdle(Init(capacity, workers).workers);
  }

  lemma Sizes(all: multiset<TaskId>, a: multiset<TaskId>, b: multiset<TaskId>, c: multiset<TaskId>, d: multiset<TaskId>)
    requires forall t: TaskId :: all[t] == (a + b + c + d)[t]
    ensures all == a + b + c + d
    ensures |all| == |a| + |b| + |c| + |d|
  {
    assert all == a + b + c + d;
    assert |a + b| == |a| + |b| && |a + b + c| == |a + b| + |c|;
  }

  /** Conservation, in every interleaving, double submissions included: the accepted tasks are exactly the tasks in the
      two channels, the timers and the workers, and those completed, failed or dropped; nothing is dropped before
      cancellation; and when no Submit is between its send and its increment, `queued` accounts for all of them. */
  lemma Conservation(capacity: nat, workers: nat, run: seq<Action>)
    requires IsRun(Init(capacity, workers), run)
    ensures var s := Exec(Init(capacity, workers), run);
            && s.log.accepted == Live(s) + s.log.done + s.log.dead + s.log.dropped
            && (!s.cancelled ==> s.log.dropped == multiset{})
            && (s.unbumped == 0 ==> s.queued == s.completed + s.failed + |Live(s)| + |s.log.dropped|)
  {
    SafeInit(capacity, workers);
    SafeRun(Init(capacity, workers), run);
    var s := Exec(Init(capacity, workers), run);
    forall t: TaskId ensures s.log.accepted[t] == (Live(s) + s.log.done + s.log.dead + s.log.dropped)[t] {
      assert Balance(s, t);
      SpotsLive(s, t);
    }
    Sizes(s.log.accepted, Live(s), s.log.done, s.log.dead, s.log.dropped);
  }

  /** A task submitted once is, at any moment, in exactly one place. */
  lemma ExactlyOnePlace(capacity: nat, workers: nat, run: seq<Action>, t: TaskId)
    requires IsRun(Init(capacity, workers), run)
    requires Exec(Init(capacity, workers), run).log.accepted[t] == 1
    ensures var s := Exec(Init(capacity, workers), run);
            Occurs(s.tasks, t) + Occurs(s.retry, t) + Occurs(s.sleeping, t) + Occurs(s.firing, t)
            + Holders(s.workers, t) + s.log.done[t] + s.log.dead[t] + s.log.dropped[t] == 1
  {
    SafeInit(capacity, workers);
    SafeRun(Init(capacity, workers), run);
    assert Balance(Exec(Init(capacity, workers), run), t);
  }

  ghost predicate AllExited(s: State) {
    forall w | 0 <= w < |s.workers| :: s.workers[w].Exited?
  }

  ghost predicate Frozen(s: State, s': State) {
    && s'.workers == s.workers
    && s'.completed == s.completed && s'.failed == s.failed && s'.active == s.active
    && s'.log.done == s.log.done && s'.log.dead == s.log.dead
    && s.tasks <= s'.tasks && s.retry <= s'.retry
  }

  lemma FrozenStep(s: State, a: Action)
    requires Enabled(s, a) && AllExited(s)
    ensures Frozen(s, Next(s, a))
  {
  }

  /** Once every worker has exited, which is when Shutdown returns, no step completes or fails a task any more: what is
      left in the channels stays unprocessed, even though Submit may still put tasks there. */
  lemma {:induction false} NothingAfterShutdown(s: State, run: seq<Action>)
    requires IsRun(s, run)
    requires AllExited(s)
    ensures Frozen(s, Exec(s, run))
    decreases |run|
  {
    if run != [] {
      FrozenStep(s, run[0]);
      NothingAfterShutdown(Next(s, run[0]), run[1..]);
    }
  }
}
