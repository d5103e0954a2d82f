/** What the pool holds and has counted, read off the steps of a run: which submissions and outcomes there were, in
    which order the channels give tasks out, and which handlers are registered. */
module PoolHistory {
  import opened PoolProtocol
  import opened PoolSafety
  import opened PoolPlaces

  // Outcomes

  datatype Event = Accepted | Succeeded | FailedForGood | Dropped

  /** The step is such an event for task t. */
  predicate Happens(s: State, a: Action, t: TaskId, e: Event)
    requires Enabled(s, a)
  {
    match e
    case Accepted => (a.Send? || a.SendDirect?) && a.t == t
    case Succeeded => a.HandlerOk? && s.workers[a.w].task == t
    case FailedForGood =>
      || (a.NoHandler? && s.workers[a.w].task == t)
      || (a.Decide? && s.workers[a.w].task == t && s.records[t].retries > s.records[t].maxRetries)
    case Dropped => a.RetryDrop? && s.firing[a.i] == t
  }

  ghost function Events(s: State, run: seq<Action>, t: TaskId, e: Event): nat
    requires IsRun(s, run)
    decreases |run|
  {
    if run == [] then 0 else (if Happens(s, run[0], t, e) then 1 else 0) + Events(Next(s, run[0]), run[1..], t, e)
  }

  /** What is counted of the events, or about to be. */
  function Counted(s: State, t: TaskId, e: Event): nat {
    match e
    case Accepted => s.log.accepted[t]
    case Succeeded => s.log.done[t] + Number(s, t, Good)
    case FailedForGood => s.log.dead[t] + Number(s, t, Bad)
    case Dropped => s.log.dropped[t]
  }

  /** The history of t in a step with the given move. */
  predicate Logged(s: State, s': State, t: TaskId, m: Move) {
    var mine := m.Go? && m.t == t;
    && s'.log.accepted[t] == s.log.accepted[t] + (if mine && m.from == Gone then 1 else 0)
    && s'.log.done[t] == s.log.done[t] + (if mine && m.from == Good then 1 else 0)
    && s'.log.dead[t] == s.log.dead[t] + (if mine && m.from == Bad then 1 else 0)
    && s'.log.dropped[t] == s.log.dropped[t] + (if mine && m.from == Away && m.dest == Gone then 1 else 0)
  }

  lemma LoggedStep(s: State, a: Action, t: TaskId)
    requires Enabled(s, a)
    ensures Logged(s, Next(s, a), t, MoveOf(s, a))
  {
    if ByWorker(a) {
      LoggedByWorker(s, a, t);
    }
  }

  lemma LoggedByWorker(s: State, a: Action, t: TaskId)
    requires Enabled(s, a) && ByWorker(a)
    ensures Logged(s, Next(s, a), t, MoveOf(s, a))
  {
    if !a.Count? {
      LoggedBeforeCount(s, a, t);
    }
  }

  lemma LoggedBeforeCount(s: State, a: Action, t: TaskId)
    requires Enabled(s, a) && ByWorker(a) && !a.Count?
    ensures Logged(s, Next(s, a), t, MoveOf(s, a))
  {
  }

  lemma HappensIsMove(s: State, a: Action, t: TaskId)
    requires Enabled(s, a)
    ensures var m := MoveOf(s, a);
            var mine := m.Go? && m.t == t;
            && (Happens(s, a, t, Accepted) <==> mine && m.from == Gone)
            && (Happens(s, a, t, Succeeded) <==> mine && m.dest == Good)
            && (Happens(s, a, t, FailedForGood) <==> mine && m.dest == Bad)
            && (Happens(s, a, t, Dropped) <==> mine && m.from == Away && m.dest == Gone)
            && (mine ==> m.from != m.dest)
  {
  }

  lemma CountedStep(s: State, a: Action, t: TaskId, e: Event)
    requires Enabled(s, a)
    ensures Counted(Next(s, a), t, e) == Counted(s, t, e) + (if Happens(s, a, t, e) then 1 else 0)
  {
    MovesOne(s, a, t);
    LoggedStep(s, a, t);
    HappensIsMove(s, a, t);
  }

  lemma {:induction false} CountedRun(s: State, run: seq<Action>, t: TaskId, e: Event)
    requires IsRun(s, run)
    ensures Counted(Exec(s, run), t, e) == Counted(s, t, e) + Events(s, run, t, e)
    decreases |run|
  {
    if run != [] {
      CountedStep(s, run[0], t, e);
      CountedRun(Next(s, run[0]), run[1..], t, e);
    }
  }

  /** In every interleaving the history, whose sizes the counters are, is that of the steps: for each task, as many
      accepted as were sent, as many completed, or about to be counted so, as had a successful handler, as many failed
      as had no handler or ran out of retries, and as many dropped as timers dropped. */
  lemma HistoryIsTrue(capacity: nat, workers: nat, run: seq<Action>, t: TaskId)
    requires IsRun(Init(capacity, workers), run)
    ensures var s0, s := Init(capacity, workers), Exec(Init(capacity, workers), run);
            && s.log.accepted[t] == Events(s0, run, t, Accepted)
            && s.log.done[t] + Number(s, t, Good) == Events(s0, run, t, Succeeded)
            && s.log.dead[t] + Number(s, t, Bad) == Events(s0, run, t, FailedForGood)
            && s.log.dropped[t] == Events(s0, run, t, Dropped)
            && s.completed == |s.log.done| && s.failed == |s.log.dead| && s.queued + s.unbumped == |s.log.accepted|
  {
    var s0 := Init(capacity, workers);
    SafeInit(capacity, workers);
    SafeRun(s0, run);
    NothingAtFirst(capacity, workers, t);
    CountedRun(s0, run, t, Accepted);
    CountedRun(s0, run, t, Succeeded);
    CountedRun(s0, run, t, FailedForGood);
    CountedRun(s0, run, t, Dropped);
  }

  // Order

  datatype Channel = Tasks | Retries

  function Buffer(s: State, c: Channel): seq<TaskId> {
    if c == Tasks then s.tasks else s.retry
  }

  /** What a step puts into the buffer of a channel. */
  function Put(s: State, a: Action, c: Channel): seq<TaskId>
    requires Enabled(s, a)
  {
    if a.Send? && c == Tasks then [a.t]
    else if a.RetrySend? && c == Retries then [s.firing[a.i]]
    else []
  }

  /** The task that a worker has after it has received from the channel. */
  function Got(s: State, a: Action, c: Channel): seq<TaskId>
    requires Enabled(s, a)
  {
    if (a.TakeTask? && c == Tasks) || (a.TakeRetry? && c == Retries) then
      var w := Next(s, a).workers[a.w];
      if w.Taken? then [w.task] else []
    else []
  }

  ghost function AllPut(s: State, run: seq<Action>, c: Channel): seq<TaskId>
    requires IsRun(s, run)
    decreases |run|
  {
    if run == [] then [] else Put(s, run[0], c) + AllPut(Next(s, run[0]), run[1..], c)
  }

  ghost function AllGot(s: State, run: seq<Action>, c: Channel): seq<TaskId>
    requires IsRun(s, run)
    decreases |run|
  {
    if run == [] then [] else Got(s, run[0], c) + AllGot(Next(s, run[0]), run[1..], c)
  }

  lemma BufferStep(s: State, a: Action, c: Channel)
    requires Enabled(s, a)
    ensures Buffer(s, c) + Put(s, a, c) == Got(s, a, c) + Buffer(Next(s, a), c)
  {
    if !a.Send? && !a.RetrySend? && !a.TakeTask? && !a.TakeRetry? {
      BufferStays(s, a, c);
    }
  }

  lemma BufferStays(s: State, a: Action, c: Channel)
    requires Enabled(s, a) && !a.Send? && !a.RetrySend? && !a.TakeTask? && !a.TakeRetry?
    ensures Buffer(Next(s, a), c) == Buffer(s, c)
  {
  }

  lemma Swap(x: seq<TaskId>, p: seq<TaskId>, g: seq<TaskId>, y: seq<TaskId>, ps: seq<TaskId>, gs: seq<TaskId>,
             z: seq<TaskId>)
    requires x + p == g + y && y + ps == gs + z
    ensures x + (p + ps) == (g + gs) + z
  {
    assert x + (p + ps) == (x + p) + ps == (g + y) + ps == g + (y + ps);
    assert g + (gs + z) == (g + gs) + z;
  }

  /** In every interleaving each channel is first in, first out: the tasks received from its buffer, followed by those
      still in it, are the tasks that were put there, in that order. */
  lemma {:induction false} FirstInFirstOut(s: State, run: seq<Action>, c: Channel)
    requires IsRun(s, run)
    ensures Buffer(s, c) + AllPut(s, run, c) == AllGot(s, run, c) + Buffer(Exec(s, run), c)
    decreases |run|
  {
    if run != [] {
      var next := Next(s, run[0]);
      BufferStep(s, run[0], c);
      FirstInFirstOut(next, run[1..], c);
      Swap(Buffer(s, c), Put(s, run[0], c), Got(s, run[0], c), Buffer(next, c), AllPut(next, run[1..], c),
           AllGot(next, run[1..], c), Buffer(Exec(s, run), c));
    }
  }

  // Handlers

  lemma {:induction false} HandlersAre(s: State, run: seq<Action>, kind: nat)
    requires IsRun(s, run)
    ensures kind in Exec(s, run).handlers <==> kind in s.handlers || Register(kind) in run
    decreases |run|
  {
    if run != [] {
      HandlersStep(s, run[0], kind);
      HandlersAre(Next(s, run[0]), run[1..], kind);
      assert run == [run[0]] + run[1..];
    }
  }

  lemma HandlersStep(s: State, a: Action, kind: nat)
    requires Enabled(s, a)
    ensures kind in Next(s, a).handlers <==> kind in s.handlers || a == Register(kind)
  {
  }

  /** In every interleaving a handler stays registered once it is: the handler of a task runs exactly if one has been
      registered for its kind by then, and the task fails for want of one otherwise. */
  lemma HandlerIsFound(capacity: nat, workers: nat, run: seq<Action>, w: nat)
    requires IsRun(Init(capacity, workers), run) && Looking(Exec(Init(capacity, workers), run), w)
    ensures var s := Exec(Init(capacity, workers), run);
            var kind := s.records[s.workers[w].task].kind;
            && (Enabled(s, HandlerOk(w)) <==> Register(kind) in run)
            && (Enabled(s, HandlerErr(w)) <==> Register(kind) in run)
            && (Enabled(s, NoHandler(w)) <==> Register(kind) !in run)
  {
    var s := Exec(Init(capacity, workers), run);
    HandlersAre(Init(capacity, workers), run, s.records[s.workers[w].task].kind);
  }

  /** The pool itself writes no more of a record than its status and its retries. */
  lemma RecordsKeep(s: State, a: Action, t: TaskId)
    requires Enabled(s, a) && t in s.records && !(a.Prepare? && a.t == t)
    ensures t in Next(s, a).records
    ensures Next(s, a).records[t].kind == s.records[t].kind
    ensures Next(s, a).records[t].maxRetries == s.records[t].maxRetries
  {
  }

  /** Cancellation takes no step away, except that it happens once: a select with several ready cases picks any. The
      steps it adds are the exit of a worker and the drop of a retry. */
  lemma CancelledSteps(s: State, a: Action)
    ensures var before, after := s.(cancelled := false), s.(cancelled := true);
            && (!a.Cancel? && Enabled(before, a) ==> Enabled(after, a))
            && (!a.Exit? && !a.RetryDrop? && Enabled(after, a) ==> Enabled(before, a))
            && (a.Exit? || a.RetryDrop? ==> !Enabled(before, a))
  {
  }

  /** In every interleaving a Submit cannot send exactly when the channel is full and, if it has no buffer, no worker is
      idle. */
  lemma SubmitWaits(capacity: nat, workers: nat, run: seq<Action>, t: TaskId)
    requires IsRun(Init(capacity, workers), run) && t in Exec(Init(capacity, workers), run).records
    ensures var s := Exec(Init(capacity, workers), run);
            !Enabled(s, Send(t)) && (forall w :: !Enabled(s, SendDirect(t, w)))
            <==> |s.tasks| == capacity && (capacity == 0 ==> !AnyIdle(s))
  {
    CapacityKept(capacity, workers, run);
    var s := Exec(Init(capacity, workers), run);
    if w :| s.tasks == [] && 0 <= w < |s.workers| && s.workers[w].Idle? {
      assert Enabled(s, SendDirect(t, w));
    }
  }

  /** A fired timer likewise, as long as nobody cancels. */
  lemma TimerWaits(capacity: nat, workers: nat, run: seq<Action>, i: nat)
    requires IsRun(Init(capacity, workers), run) && i < |Exec(Init(capacity, workers), run).firing|
    ensures var s := Exec(Init(capacity, workers), run);
            !Enabled(s, RetrySend(i)) && !Enabled(s, RetryDrop(i)) && (forall w :: !Enabled(s, RetryDirect(i, w)))
            <==> |s.retry| == capacity && !s.cancelled && (capacity == 0 ==> !AnyIdle(s))
  {
    CapacityKept(capacity, workers, run);
    var s := Exec(Init(capacity, workers), run);
    if w :| s.retry == [] && 0 <= w < |s.workers| && s.workers[w].Idle? {
      assert Enabled(s, RetryDirect(i, w));
    }
  }

  ghost predicate AnyIdle(s: State) {
    exists w :: 0 <= w < |s.workers| && s.workers[w].Idle?
  }

  lemma CapacityKept(capacity: nat, workers: nat, run: seq<Action>)
    requires IsRun(Init(capacity, workers), run)
    ensures var s := Exec(Init(capacity, workers), run);
            s.capacity == capacity && |s.tasks| <= capacity && |s.retry| <= capacity
  {
    SafeInit(capacity, workers);
    SafeRun(Init(capacity, workers), run);
    SameCapacity(Init(capacity, workers), run);
  }

  lemma {:induction false} SameCapacity(s: State, run: seq<Action>)
    requires IsRun(s, run)
    ensures Exec(s, run).capacity == s.capacity
    decreases |run|
  {
    if run != [] {
      SameCapacityStep(s, run[0]);
      SameCapacity(Next(s, run[0]), run[1..]);
    }
  }

  lemma SameCapacityStep(s: State, a: Action)
    requires Enabled(s, a)
    ensures Next(s, a).capacity == s.capacity
  {
  }

  /** Submit may still send after cancellation: here a task is accepted after the only worker has left, and stays in
      the channel for good. */
  lemma StrandedAfterShutdown(s: State, run: seq<Action>, rest: seq<Action>)
    requires s == Init(1, 1) && run == [Prepare(0, Task(0, Pending, 0, 0)), Cancel, Exit(0), Send(0)]
    requires IsRun(s, run) ==> IsRun(Exec(s, run), rest)
    ensures IsRun(s, run) && Exec(s, run).log.accepted[0] == 1 && [0] <= Exec(Exec(s, run), rest).tasks
  {
    var s1 := Next(s, run[0]);
    var s2 := Next(s1, Cancel);
    var s3 := Next(s2, Exit(0));
    var s4 := Next(s3, Send(0));
    assert run[3..][1..] == [] && IsRun(s4, []) && Exec(s4, []) == s4;
    assert run[2..][1..] == run[3..] && run[1..][1..] == run[2..];
    assert IsRun(s3, run[3..]) && Exec(s3, run[3..]) == s4;
    assert IsRun(s2, run[2..]) && Exec(s2, run[2..]) == s4;
    assert IsRun(s1, run[1..]) && Exec(s1, run[1..]) == s4;
    NothingAfterShutdown(s4, rest);
  }
}
