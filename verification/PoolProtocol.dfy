/** The worker pool of pool.go as a protocol: every action below is one atomic step of one goroutine (a client inside
    Submit, a worker, a backoff timer, or whoever cancels the context). Any enabled action may come next, so a run of
    the protocol is an arbitrary interleaving of the goroutines. */
module PoolProtocol {

  /** The identity of a *Task pointer. The same pointer may be submitted any number of times. */
  type TaskId = nat

  datatype Status = Pending | Running | Completed | Failed | Retry

  datatype Task = Task(kind: nat, status: Status, retries: int, maxRetries: int)

  /** Where a worker goroutine stands. Idle: at the select of its loop. Taken: task received, `active` not yet
      raised. Handling: status is Running and the handler is looked up or executing. Failing: the handler has failed
      and `Retries` has been read as `seen`, for its increment. Deciding: the increment has been written, and
      `Retries` not yet compared. Finishing: final status written, `completed` or `failed` not yet raised. Leaving:
      only the deferred decrement of `active` is left. Exited: returned after the context was cancelled. */
  datatype Worker =
    | Idle
    | Taken(task: TaskId)
    | Handling(task: TaskId)
    | Failing(task: TaskId, seen: int)
    | Deciding(task: TaskId)
    | Finishing(task: TaskId, ok: bool)
    | Leaving
    | Exited

  /** What the retry accounting of one submission starts from (`base` retries, `limit` = MaxRetries) and how often the
      handler has returned for it since. */
  datatype Ticket = Ticket(base: int, limit: int, runs: nat)

  /** What the code does not store: the tasks accepted, completed, failed and dropped so far, once for each time, and
      the tickets of the latest submissions. */
  datatype History = History(
    accepted: multiset<TaskId>,
    done: multiset<TaskId>,
    dead: multiset<TaskId>,
    dropped: multiset<TaskId>,
    tickets: map<TaskId, Ticket>)

  /** `unbumped` counts the Submit calls between their send and their increment of `queued`.
      `sleeping` holds the tasks of timers that have not fired, `firing` those of timers blocked in their select. */
  datatype State = State(
    capacity: nat,
    handlers: set<nat>,
    records: map<TaskId, Task>,
    tasks: seq<TaskId>,
    retry: seq<TaskId>,
    sleeping: seq<TaskId>,
    firing: seq<TaskId>,
    workers: seq<Worker>,
    unbumped: nat,
    queued: nat,
    completed: nat,
    failed: nat,
    active: int,
    cancelled: bool,
    log: History)

  datatype Action =
    | Prepare(t: TaskId, record: Task)     // the client creates a task or writes its fields
    | Register(kind: nat)                  // RegisterHandler
    | Send(t: TaskId)                      // Submit's send into the buffer of `tasks`
    | SendDirect(t: TaskId, w: nat)        // Submit's send straight to a waiting worker
    | Bump                                 // Submit's increment of `queued`
    | TakeTask(w: nat)
    | TakeRetry(w: nat)
    | Start(w: nat)                        // `active` raised, status Running
    | NoHandler(w: nat)
    | HandlerOk(w: nat)
    | HandlerErr(w: nat)                   // the handler fails, and `Retries` is read
    | Store(w: nat)                        // `Retries` is written, one above what was read
    | Decide(w: nat)                       // `Retries` is compared: a timer is started, or the task has failed
    | Count(w: nat)                        // `completed` or `failed` raised
    | Leave(w: nat)                        // `active` lowered
    | Fire(i: nat)                         // the backoff of timer i is over
    | RetrySend(i: nat)                    // its send into the buffer of `retry`
    | RetryDirect(i: nat, w: nat)          // its send straight to a waiting worker
    | RetryDrop(i: nat)                    // it sees the cancelled context instead
    | Cancel
    | Exit(w: nat)

  function Init(capacity: nat, workers: nat): State {
    State(capacity, {}, map[], [], [], [], [], seq(workers, _ => Idle), 0, 0, 0, 0, 0, false,
          History(multiset{}, multiset{}, multiset{}, multiset{}, map[]))
  }

  function Without<T>(xs: seq<T>, i: nat): seq<T>
    requires i < |xs|
  {
    xs[..i] + xs[i + 1..]
  }

  predicate At(s: State, w: nat) {
    w < |s.workers|
  }

  predicate Enabled(s: State, a: Action) {
    match a
    case Prepare(_, _) => true
    case Register(_) => true
    case Send(t) => t in s.records && |s.tasks| < s.capacity
    case SendDirect(t, w) => t in s.records && |s.tasks| == 0 && At(s, w) && s.workers[w].Idle?
    case Bump => s.unbumped > 0
    case TakeTask(w) => At(s, w) && s.workers[w].Idle? && |s.tasks| > 0
    case TakeRetry(w) => At(s, w) && s.workers[w].Idle? && |s.retry| > 0
    case Start(w) => At(s, w) && s.workers[w].Taken? && s.workers[w].task in s.records
    case NoHandler(w) => Looking(s, w) && s.records[s.workers[w].task].kind !in s.handlers
    case HandlerOk(w) => Looking(s, w) && s.records[s.workers[w].task].kind in s.handlers
    case HandlerErr(w) => Looking(s, w) && s.records[s.workers[w].task].kind in s.handlers
    case Store(w) => At(s, w) && s.workers[w].Failing? && s.workers[w].task in s.records
    case Decide(w) => At(s, w) && s.workers[w].Deciding? && s.workers[w].task in s.records
    case Count(w) => At(s, w) && s.workers[w].Finishing?
    case Leave(w) => At(s, w) && s.workers[w].Leaving?
    case Fire(i) => i < |s.sleeping|
    case RetrySend(i) => i < |s.firing| && |s.retry| < s.capacity
    case RetryDirect(i, w) => i < |s.firing| && |s.retry| == 0 && At(s, w) && s.workers[w].Idle?
    case RetryDrop(i) => i < |s.firing| && s.cancelled
    case Cancel => !s.cancelled
    case Exit(w) => At(s, w) && s.workers[w].Idle? && s.cancelled
  }

  predicate Looking(s: State, w: nat) {
    At(s, w) && s.workers[w].Handling? && s.workers[w].task in s.records
  }

  predicate MayRetry(record: Task) {
    record.retries <= record.maxRetries
  }

  /** What one accepted Submit adds to the history. */
  function Admit(s: State, t: TaskId): State
    requires t in s.records
  {
    s.(unbumped := s.unbumped + 1, log := Entered(s, t))
  }

  function Entered(s: State, t: TaskId): History
    requires t in s.records
  {
    s.log.(accepted := s.log.accepted + multiset{t},
           tickets := s.log.tickets[t := Ticket(s.records[t].retries, s.records[t].maxRetries, 0)])
  }

  /** The handler has returned for t once more. */
  function Returned(log: History, t: TaskId): History {
    if t in log.tickets
    then log.(tickets := log.tickets[t := log.tickets[t].(runs := log.tickets[t].runs + 1)])
    else log
  }

  function Next(s: State, a: Action): State
    requires Enabled(s, a)
  {
    match a
    case Prepare(t, record) => s.(records := s.records[t := record])
    case Register(kind) => s.(handlers := s.handlers + {kind})
    case Send(t) => Admit(s, t).(tasks := s.tasks + [t])
    case SendDirect(t, w) => Admit(s, t).(workers := s.workers[w := Taken(t)])
    case Bump => s.(unbumped := s.unbumped - 1, queued := s.queued + 1)
    case TakeTask(w) => s.(tasks := s.tasks[1..], workers := s.workers[w := Taken(s.tasks[0])])
    case TakeRetry(w) => s.(retry := s.retry[1..], workers := s.workers[w := Taken(s.retry[0])])
    case Start(w) =>
      var t := s.workers[w].task;
      s.(records := s.records[t := s.records[t].(status := Running)],
         workers := s.workers[w := Handling(t)],
         active := s.active + 1)
    case NoHandler(w) =>
      var t := s.workers[w].task;
      s.(records := s.records[t := s.records[t].(status := Failed)], workers := s.workers[w := Finishing(t, false)])
    case HandlerOk(w) =>
      var t := s.workers[w].task;
      s.(records := s.records[t := s.records[t].(status := Completed)],
         log := Returned(s.log, t),
         workers := s.workers[w := Finishing(t, true)])
    case HandlerErr(w) =>
      var t := s.workers[w].task;
      s.(log := Returned(s.log, t), workers := s.workers[w := Failing(t, s.records[t].retries)])
    case Store(w) =>
      var t := s.workers[w].task;
      s.(records := s.records[t := s.records[t].(retries := s.workers[w].seen + 1)],
         workers := s.workers[w := Deciding(t)])
    case Decide(w) =>
      var t := s.workers[w].task;
      if MayRetry(s.records[t]) then
        s.(records := s.records[t := s.records[t].(status := Retry)],
           sleeping := s.sleeping + [t],
           workers := s.workers[w := Leaving])
      else
        s.(records := s.records[t := s.records[t].(status := Failed)],
           workers := s.workers[w := Finishing(t, false)])
    case Count(w) =>
      var t := s.workers[w].task;
      if s.workers[w].ok then
        s.(completed := s.completed + 1,
           log := s.log.(done := s.log.done + multiset{t}),
           workers := s.workers[w := Leaving])
      else
        s.(failed := s.failed + 1,
           log := s.log.(dead := s.log.dead + multiset{t}),
           workers := s.workers[w := Leaving])
    case Leave(w) => s.(active := s.active - 1, workers := s.workers[w := Idle])
    case Fire(i) => s.(sleeping := Without(s.sleeping, i), firing := s.firing + [s.sleeping[i]])
    case RetrySend(i) => s.(firing := Without(s.firing, i), retry := s.retry + [s.firing[i]])
    case RetryDirect(i, w) => s.(firing := Without(s.firing, i), workers := s.workers[w := Taken(s.firing[i])])
    case RetryDrop(i) =>
      s.(firing := Without(s.firing, i), log := s.log.(dropped := s.log.dropped + multiset{s.firing[i]}))
    case Cancel => s.(cancelled := true)
    case Exit(w) => s.(workers := s.workers[w := Exited])
  }

  // Runs

  ghost predicate IsRun(s: State, run: seq<Action>)
    decreases |run|
  {
    run == [] || (Enabled(s, run[0]) && IsRun(Next(s, run[0]), run[1..]))
  }

  ghost function Exec(s: State, run: seq<Action>): State
    requires IsRun(s, run)
    decreases |run|
  {
    if run == [] then s else Exec(Next(s, run[0]), run[1..])
  }

  // What the places hold

  function Of(w: Worker): multiset<TaskId> {
    match w
    case Taken(t) => multiset{t}
    case Handling(t) => multiset{t}
    case Failing(t, _) => multiset{t}
    case Deciding(t) => multiset{t}
    case Finishing(t, _) => multiset{t}
    case _ => multiset{}
  }

  function Held(ws: seq<Worker>): multiset<TaskId> {
    if ws == [] then multiset{} else Held(ws[..|ws| - 1]) + Of(ws[|ws| - 1])
  }

  /** Every place that can hold a submitted, unfinished task. */
  function Live(s: State): multiset<TaskId> {
    multiset(s.tasks) + multiset(s.retry) + multiset(s.sleeping) + multiset(s.firing) + Held(s.workers)
  }

  // The same, counted for one task

  function Has(w: Worker, t: TaskId): nat {
    if (w.Taken? || w.Handling? || w.Failing? || w.Deciding? || w.Finishing?) && w.task == t then 1 else 0
  }

  function Holders(ws: seq<Worker>, t: TaskId): nat {
    if ws == [] then 0 else Holders(ws[..|ws| - 1], t) + Has(ws[|ws| - 1], t)
  }

  function Occurs(xs: seq<TaskId>, t: TaskId): nat {
    if xs == [] then 0 else Occurs(xs[..|xs| - 1], t) + (if xs[|xs| - 1] == t then 1 else 0)
  }

  function Spots(s: State, t: TaskId): nat {
    Occurs(s.tasks, t) + Occurs(s.retry, t) + Occurs(s.sleeping, t) + Occurs(s.firing, t) + Holders(s.workers, t)
  }

  lemma {:induction false} HoldersUpdate(ws: seq<Worker>, i: nat, w: Worker, t: TaskId)
    requires i < |ws|
    ensures Holders(ws[i := w], t) + Has(ws[i], t) == Holders(ws, t) + Has(w, t)
  {
    var n, ws' := |ws| - 1, ws[i := w];
    if i == n {
      assert ws'[..n] == ws[..n];
    } else {
      assert ws'[..n] == ws[..n][i := w];
      HoldersUpdate(ws[..n], i, w, t);
    }
  }

  lemma OccursAppend(xs: seq<TaskId>, x: TaskId, t: TaskId)
    ensures Occurs(xs + [x], t) == Occurs(xs, t) + (if x == t then 1 else 0)
  {
    assert (xs + [x])[..|xs|] == xs;
  }

  lemma {:induction false} OccursWithout(xs: seq<TaskId>, i: nat, t: TaskId)
    requires i < |xs|
    ensures Occurs(xs, t) == Occurs(Without(xs, i), t) + (if xs[i] == t then 1 else 0)
  {
    var n := |xs| - 1;
    if i == n {
      assert Without(xs, i) == xs[..n];
    } else {
      assert Without(xs, i) == Without(xs[..n], i) + [xs[n]];
      OccursWithout(xs[..n], i, t);
      OccursAppend(Without(xs[..n], i), xs[n], t);
    }
  }

  lemma {:induction false} HoldersHeld(ws: seq<Worker>, t: TaskId)
    ensures Holders(ws, t) == Held(ws)[t]
  {
    if ws != [] {
      HoldersHeld(ws[..|ws| - 1], t);
    }
  }

  lemma {:induction false} OccursIn(xs: seq<TaskId>, t: TaskId)
    ensures Occurs(xs, t) == multiset(xs)[t]
  {
    if xs != [] {
      var n := |xs| - 1;
      assert xs == xs[..n] + [xs[n]];
      OccursIn(xs[..n], t);
    }
  }

  lemma SpotsLive(s: State, t: TaskId)
    ensures Spots(s, t) == Live(s)[t]
  {
    OccursIn(s.tasks, t);
    OccursIn(s.retry, t);
    OccursIn(s.sleeping, t);
    OccursIn(s.firing, t);
    HoldersHeld(s.workers, t);
  }
}
