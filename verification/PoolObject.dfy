/** The Pool object of pool.go. Each method performs, on the object's fields and in the order of the code, the atomic
    steps one goroutine takes when no other goroutine comes in between; its contract names those steps, so that what is
    proved of every interleaving of steps covers the methods. */
module PoolObject {
  import opened Wrappers
  import opened PoolProtocol
  import opened PoolSafety

  datatype Outcome = Submitted | ShuttingDown | QueueFull

  datatype PoolStats = PoolStats(active: int, queued: nat, completed: nat, failed: nat)

  /** The steps of processTask, by what the handler does. */
  function ProcessPath(s: State, w: nat, err: bool): seq<Action>
    requires Enabled(s, Start(w))
  {
    [Start(w)] + HandlePath(Next(s, Start(w)), w, err)
  }

  function HandlePath(s: State, w: nat, err: bool): seq<Action>
    requires Looking(s, w)
  {
    var record := s.records[s.workers[w].task];
    if record.kind !in s.handlers then [NoHandler(w), Count(w), Leave(w)]
    else if !err then [HandlerOk(w), Count(w), Leave(w)]
    else [HandlerErr(w), Store(w)] + DecidePath(Next(Next(s, HandlerErr(w)), Store(w)), w)
  }

  function DecidePath(s: State, w: nat): seq<Action>
    requires Enabled(s, Decide(w))
  {
    if MayRetry(s.records[s.workers[w].task]) then [Decide(w), Leave(w)] else [Decide(w), Count(w), Leave(w)]
  }

  /** The steps of a successful Submit: a worker parked at its select is handed the task directly. */
  function SubmitPath(t: TaskId, parked: Option<nat>): seq<Action> {
    [if parked.Some? then SendDirect(t, parked.value) else Send(t), Bump]
  }

  /** How a fired timer hands its task on. */
  function ResendStep(i: nat, parked: Option<nat>): Action {
    if parked.Some? then RetryDirect(i, parked.value) else RetrySend(i)
  }

  lemma PathOfTwo(s: State, a: Action, b: Action)
    requires Enabled(s, a) && Enabled(Next(s, a), b)
    ensures IsRun(s, [a, b]) && Exec(s, [a, b]) == Next(Next(s, a), b)
  {
    var s1, s2 := Next(s, a), Next(Next(s, a), b);
    assert [b][1..] == [] && [a, b][1..] == [b];
    assert IsRun(s2, []) && Exec(s2, []) == s2;
    assert IsRun(s1, [b]) && Exec(s1, [b]) == s2;
  }

  lemma PathMore(s: State, a: Action, rest: seq<Action>)
    requires Enabled(s, a) && IsRun(Next(s, a), rest)
    ensures IsRun(s, [a] + rest) && Exec(s, [a] + rest) == Exec(Next(s, a), rest)
  {
    assert ([a] + rest)[1..] == rest;
  }

  lemma {:induction false} CountersOnlyGrow(s: State, run: seq<Action>)
    requires IsRun(s, run)
    ensures var s' := Exec(s, run); s.queued <= s'.queued && s.completed <= s'.completed && s.failed <= s'.failed
    decreases |run|
  {
    if run != [] {
      var next := Next(s, run[0]);
      assert s.queued <= next.queued && s.completed <= next.completed && s.failed <= next.failed;
      CountersOnlyGrow(next, run[1..]);
    }
  }

  /** Stats loads the four counters one after the other. With other steps in between, each of the three totals is one
      that it had while Stats was running: not below its value at the start, nor above that at the end. */
  lemma StatsWhileOthersRun(s1: State, run1: seq<Action>, s2: State, run2: seq<Action>, s3: State, run3: seq<Action>,
                            s4: State)
    requires IsRun(s1, run1) && s2 == Exec(s1, run1) && IsRun(s2, run2) && s3 == Exec(s2, run2)
    requires IsRun(s3, run3) && s4 == Exec(s3, run3)
    ensures var r := PoolStats(s1.active, s2.queued, s3.completed, s4.failed);
            && s1.queued <= r.queued <= s4.queued
            && s1.completed <= r.completed <= s4.completed
            && s1.failed <= r.failed <= s4.failed
  {
    CountersOnlyGrow(s1, run1);
    CountersOnlyGrow(s2, run2);
    CountersOnlyGrow(s3, run3);
  }

  class Pool {
    const capacity: nat
    var handlers: set<nat>
    var records: map<TaskId, Task>
    var tasks: seq<TaskId>
    var retry: seq<TaskId>
    var sleeping: seq<TaskId>
    var firing: seq<TaskId>
    var workers: seq<Worker>
    var queued: nat
    var completed: nat
    var failed: nat
    var active: int
    var cancelled: bool
    ghost var unbumped: nat
    ghost var log: History

    ghost function View(): State
      reads this
    {
      State(capacity, handlers, records, tasks, retry, sleeping, firing, workers, unbumped, queued, completed, failed,
            active, cancelled, log)
    }

    constructor (numWorkers: nat, queueSize: nat)
      ensures View() == Init(queueSize, numWorkers) && Safe(View())
    {
      capacity := queueSize;
      handlers, records := {}, map[];
      tasks, retry, sleeping, firing := [], [], [], [];
      workers := seq(numWorkers, _ => Idle);
      queued, completed, failed, active, cancelled := 0, 0, 0, 0, false;
      unbumped, log := 0, History(multiset{}, multiset{}, multiset{}, multiset{}, map[]);
      new;
      SafeInit(queueSize, numWorkers);
    }

    method RegisterHandler(kind: nat)
      modifies this
      ensures View() == Next(old(View()), Register(kind))
      ensures Safe(old(View())) ==> Safe(View())
    {
      handlers := handlers + {kind};
      if Safe(old(View())) {
        SafeStep(old(View()), Register(kind));
      }
    }

    method SendTask(t: TaskId)
      requires Enabled(View(), Send(t))
      modifies this
      ensures View() == Next(old(View()), Send(t))
    {
      log, unbumped, tasks := Entered(View(), t), unbumped + 1, tasks + [t];
    }

    method HandOver(t: TaskId, w: nat)
      requires Enabled(View(), SendDirect(t, w))
      modifies this
      ensures View() == Next(old(View()), SendDirect(t, w))
    {
      log, unbumped, workers := Entered(View(), t), unbumped + 1, workers[w := Taken(t)];
    }

    method BumpQueued()
      requires Enabled(View(), Bump)
      modifies this
      ensures View() == Next(old(View()), Bump)
    {
      queued, unbumped := queued + 1, unbumped - 1;
    }

    /** The select picks any ready case, and the default only when none is ready. The send is ready when there is space
        or a parked worker. */
    method Submit(t: TaskId, parked: Option<nat>) returns (r: Outcome)
      requires t in records
      requires parked.Some? ==> Enabled(View(), SendDirect(t, parked.value))
      modifies this
      ensures r == Submitted ==>
                IsRun(old(View()), SubmitPath(t, parked)) && View() == Exec(old(View()), SubmitPath(t, parked))
      ensures r != Submitted ==> View() == old(View())
      ensures records == old(records)
      ensures r == ShuttingDown ==> cancelled
      ensures r == QueueFull ==> !cancelled && |tasks| >= capacity && parked.None?
      ensures Safe(old(View())) ==> Safe(View())
    {
      var picksSend: bool := *;
      if (|tasks| < capacity || parked.Some?) && (!cancelled || picksSend) {
        if parked.Some? {
          HandOver(t, parked.value);
        } else {
          SendTask(t);
        }
        BumpQueued();
        PathOfTwo(old(View()), SubmitPath(t, parked)[0], Bump);
        if Safe(old(View())) {
          SafeRun(old(View()), SubmitPath(t, parked));
        }
        return Submitted;
      } else if cancelled {
        return ShuttingDown;
      } else {
        return QueueFull;
      }
    }

    method SubmitWithRetry(t: TaskId, maxRetries: int, parked: Option<nat>) returns (r: Outcome)
      requires t in records
      requires parked.Some? ==> Enabled(View(), SendDirect(t, parked.value))
      modifies this
      ensures var prepared := Next(old(View()), Prepare(t, old(records)[t].(maxRetries := maxRetries)));
              if r == Submitted
              then IsRun(prepared, SubmitPath(t, parked)) && View() == Exec(prepared, SubmitPath(t, parked))
              else View() == prepared
      ensures t in records && records[t] == old(records[t]).(maxRetries := maxRetries)
      ensures Safe(old(View())) ==> Safe(View())
    {
      if Safe(old(View())) {
        SafeStep(View(), Prepare(t, records[t].(maxRetries := maxRetries)));
      }
      records := records[t := records[t].(maxRetries := maxRetries)];
      r := Submit(t, parked);
    }

    method ReceiveTask(w: nat)
      requires Enabled(View(), TakeTask(w))
      modifies this
      ensures View() == Next(old(View()), TakeTask(w))
    {
      workers, tasks := workers[w := Taken(tasks[0])], tasks[1..];
    }

    method ReceiveRetry(w: nat)
      requires Enabled(View(), TakeRetry(w))
      modifies this
      ensures View() == Next(old(View()), TakeRetry(w))
    {
      workers, retry := workers[w := Taken(retry[0])], retry[1..];
    }

    method Stop(w: nat)
      requires Enabled(View(), Exit(w))
      modifies this
      ensures View() == Next(old(View()), Exit(w))
    {
      workers := workers[w := Exited];
    }

    /** One turn of the worker's select, which picks any ready case. */
    method Receive(w: nat, prefersRetry: bool, prefersStop: bool) returns (a: Action)
      requires w < |workers| && workers[w].Idle?
      requires tasks != [] || retry != [] || cancelled
      modifies this
      ensures a in {TakeTask(w), TakeRetry(w), Exit(w)}
      ensures Enabled(old(View()), a) && View() == Next(old(View()), a)
      ensures Safe(old(View())) ==> Safe(View())
    {
      if cancelled && (prefersStop || (tasks == [] && retry == [])) {
        a := Exit(w);
        Stop(w);
      } else if retry != [] && (prefersRetry || tasks == []) {
        a := TakeRetry(w);
        ReceiveRetry(w);
      } else {
        a := TakeTask(w);
        ReceiveTask(w);
      }
      if Safe(old(View())) {
        SafeStep(old(View()), a);
      }
    }

    method StartTask(w: nat)
      requires Enabled(View(), Start(w))
      modifies this
      ensures View() == Next(old(View()), Start(w))
    {
      var t := workers[w].task;
      active, records, workers :=
        active + 1, records[t := records[t].(status := Running)], workers[w := Handling(t)];
    }

    method FailUnhandled(w: nat)
      requires Enabled(View(), NoHandler(w))
      modifies this
      ensures View() == Next(old(View()), NoHandler(w))
    {
      var t := workers[w].task;
      records, workers := records[t := records[t].(status := Failed)], workers[w := Finishing(t, false)];
    }

    method HandlerSucceeded(w: nat)
      requires Enabled(View(), HandlerOk(w))
      modifies this
      ensures View() == Next(old(View()), HandlerOk(w))
    {
      var t := workers[w].task;
      records, log, workers :=
        records[t := records[t].(status := Completed)], Returned(log, t), workers[w := Finishing(t, true)];
    }

    /** The handler has failed; the value of `Retries` is read for its increment. */
    method ReadRetries(w: nat)
      requires Enabled(View(), HandlerErr(w))
      modifies this
      ensures View() == Next(old(View()), HandlerErr(w))
    {
      var t := workers[w].task;
      log, workers := Returned(log, t), workers[w := Failing(t, records[t].retries)];
    }

    method WriteRetries(w: nat)
      requires Enabled(View(), Store(w))
      modifies this
      ensures View() == Next(old(View()), Store(w))
    {
      var t := workers[w].task;
      records, workers := records[t := records[t].(retries := workers[w].seen + 1)], workers[w := Deciding(t)];
    }

    method GrantRetry(w: nat)
      requires Enabled(View(), Decide(w)) && MayRetry(records[workers[w].task])
      modifies this
      ensures View() == Next(old(View()), Decide(w)) && workers[w].Leaving?
    {
      var t := workers[w].task;
      records, sleeping, workers :=
        records[t := records[t].(status := Retry)], sleeping + [t], workers[w := Leaving];
    }

    method GiveUp(w: nat)
      requires Enabled(View(), Decide(w)) && !MayRetry(records[workers[w].task])
      modifies this
      ensures View() == Next(old(View()), Decide(w)) && workers[w].Finishing?
    {
      var t := workers[w].task;
      records, workers := records[t := records[t].(status := Failed)], workers[w := Finishing(t, false)];
    }

    method CountTask(w: nat)
      requires Enabled(View(), Count(w))
      modifies this
      ensures View() == Next(old(View()), Count(w))
    {
      var t := workers[w].task;
      if workers[w].ok {
        completed, log, workers := completed + 1, log.(done := log.done + multiset{t}), workers[w := Leaving];
      } else {
        failed, log, workers := failed + 1, log.(dead := log.dead + multiset{t}), workers[w := Leaving];
      }
    }

    /** The deferred decrement at the end of processTask. */
    method LeaveTask(w: nat)
      requires Enabled(View(), Leave(w))
      modifies this
      ensures View() == Next(old(View()), Leave(w))
    {
      active, workers := active - 1, workers[w := Idle];
    }

    method ProcessTask(w: nat, err: bool)
      requires Enabled(View(), Start(w))
      modifies this
      ensures var path := ProcessPath(old(View()), w, err);
              IsRun(old(View()), path) && View() == Exec(old(View()), path)
      ensures Safe(old(View())) ==> Safe(View())
    {
      StartTask(w);
      ghost var rest := HandleTask(w, err);
      PathMore(old(View()), Start(w), rest);
      if Safe(old(View())) {
        SafeRun(old(View()), [Start(w)] + rest);
      }
    }

    /** The part of processTask from the handler lookup on. */
    method HandleTask(w: nat, err: bool) returns (ghost rest: seq<Action>)
      requires Looking(View(), w)
      modifies this
      ensures rest == HandlePath(old(View()), w, err)
      ensures IsRun(old(View()), rest) && View() == Exec(old(View()), rest)
    {
      rest := HandlePath(View(), w, err);
      if records[workers[w].task].kind !in handlers {
        FailUnhandled(w);
        FinishTask(old(View()), rest[0], w);
      } else if !err {
        HandlerSucceeded(w);
        FinishTask(old(View()), rest[0], w);
      } else {
        HandleFailure(w);
      }
    }

    method HandleFailure(w: nat)
      requires Enabled(View(), HandlerErr(w))
      modifies this
      ensures var path := HandlePath(old(View()), w, true);
              IsRun(old(View()), path) && View() == Exec(old(View()), path)
    {
      ReadRetries(w);
      ghost var s1 := View();
      WriteRetries(w);
      ghost var rest := DecidePath(View(), w);
      DecideTask(w);
      PathMore(s1, Store(w), rest);
      PathMore(old(View()), HandlerErr(w), [Store(w)] + rest);
      assert [HandlerErr(w)] + ([Store(w)] + rest) == [HandlerErr(w), Store(w)] + rest;
    }

    method DecideTask(w: nat)
      requires Enabled(View(), Decide(w))
      modifies this
      ensures var path := DecidePath(old(View()), w);
              IsRun(old(View()), path) && View() == Exec(old(View()), path)
    {
      if MayRetry(records[workers[w].task]) {
        GrantRetry(w);
        LeaveTask(w);
        PathOfTwo(old(View()), Decide(w), Leave(w));
      } else {
        GiveUp(w);
        FinishTask(old(View()), Decide(w), w);
      }
    }

    /** The counter update and the return, after step a has led here from state s. */
    method FinishTask(ghost s: State, ghost a: Action, w: nat)
      requires Enabled(s, a) && View() == Next(s, a) && Enabled(View(), Count(w))
      modifies this
      ensures IsRun(s, [a, Count(w), Leave(w)]) && View() == Exec(s, [a, Count(w), Leave(w)])
    {
      CountTask(w);
      LeaveTask(w);
      PathOfTwo(old(View()), Count(w), Leave(w));
      PathMore(s, a, [Count(w), Leave(w)]);
    }

    method DropRetry(i: nat)
      requires Enabled(View(), RetryDrop(i))
      modifies this
      ensures View() == Next(old(View()), RetryDrop(i))
    {
      log, firing := log.(dropped := log.dropped + multiset{firing[i]}), firing[..i] + firing[i + 1..];
    }

    method ResendRetry(i: nat, parked: Option<nat>)
      requires Enabled(View(), ResendStep(i, parked))
      modifies this
      ensures View() == Next(old(View()), ResendStep(i, parked))
    {
      if parked.Some? {
        workers, firing := workers[parked.value := Taken(firing[i])], firing[..i] + firing[i + 1..];
      } else {
        retry, firing := retry + [firing[i]], firing[..i] + firing[i + 1..];
      }
    }

    /** The function run by time.AfterFunc, once timer i has fired; None when it has to keep waiting. */
    method SendRetry(i: nat, parked: Option<nat>, prefersStop: bool) returns (a: Option<Action>)
      requires i < |firing|
      requires parked.Some? ==> Enabled(View(), RetryDirect(i, parked.value))
      modifies this
      ensures a.Some? <==> |old(retry)| < capacity || parked.Some? || cancelled
      ensures a.None? ==> View() == old(View())
      ensures a.Some? ==>
                && a.value in {ResendStep(i, parked), RetryDrop(i)}
                && Enabled(old(View()), a.value) && View() == Next(old(View()), a.value)
      ensures Safe(old(View())) ==> Safe(View())
    {
      var ready := |retry| < capacity || parked.Some?;
      if cancelled && (prefersStop || !ready) {
        DropRetry(i);
        a := Some(RetryDrop(i));
      } else if ready {
        ResendRetry(i, parked);
        a := Some(ResendStep(i, parked));
      } else {
        return None;
      }
      if Safe(old(View())) {
        SafeStep(old(View()), a.value);
      }
    }

    method Stats() returns (r: PoolStats)
      requires Safe(View())
      ensures r.completed == |log.done| && r.failed == |log.dead| && r.queued + unbumped == |log.accepted|
      ensures r.active == Busy(workers)
    {
      r := PoolStats(active, queued, completed, failed);
    }
  }
}
