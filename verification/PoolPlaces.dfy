/** Where the submissions of a task stand, and how each step of the pool moves at most one of them. */
module PoolPlaces {
  import opened PoolProtocol

  /** Queued: in `tasks`; Away: in a timer or in `retry`; Fresh: received by a worker; Busy: with its handler; Read
      and Written: the handler has failed, and `Retries` is read, or written, but not compared yet; Good and Bad:
      settled, but not counted yet; Gone: not in the pool. */
  datatype Place = Queued | Away | Fresh | Busy | Read | Written | Good | Bad | Gone

  function PlaceOf(w: Worker): Place {
    match w
    case Taken(_) => Fresh
    case Handling(_) => Busy
    case Failing(_, _) => Read
    case Deciding(_) => Written
    case Finishing(_, ok) => if ok then Good else Bad
    case _ => Gone
  }

  predicate Stands(w: Worker, t: TaskId, p: Place) {
    Has(w, t) == 1 && PlaceOf(w) == p
  }

  function Crew(ws: seq<Worker>, t: TaskId, p: Place): nat {
    if ws == [] then 0 else Crew(ws[..|ws| - 1], t, p) + (if Stands(ws[|ws| - 1], t, p) then 1 else 0)
  }

  /** How many submissions of t stand at a place. */
  function Number(s: State, t: TaskId, p: Place): nat {
    match p
    case Queued => Occurs(s.tasks, t)
    case Away => Occurs(s.retry, t) + Occurs(s.sleeping, t) + Occurs(s.firing, t)
    case Gone => 0
    case _ => Crew(s.workers, t, p)
  }

  /** Submissions whose handler has yet to return. */
  function Early(s: State, t: TaskId): nat {
    Number(s, t, Queued) + Number(s, t, Away) + Number(s, t, Fresh) + Number(s, t, Busy)
  }

  function InPool(s: State, t: TaskId): nat {
    Early(s, t) + Number(s, t, Read) + Number(s, t, Written) + Number(s, t, Good) + Number(s, t, Bad)
  }

  datatype Move = Stay | Go(t: TaskId, from: Place, dest: Place)

  /** What a step moves. */
  function MoveOf(s: State, a: Action): Move
    requires Enabled(s, a)
  {
    match a
    case Send(t) => Go(t, Gone, Queued)
    case SendDirect(t, _) => Go(t, Gone, Fresh)
    case TakeTask(_) => Go(s.tasks[0], Queued, Fresh)
    case TakeRetry(_) => Go(s.retry[0], Away, Fresh)
    case RetryDirect(i, _) => Go(s.firing[i], Away, Fresh)
    case RetryDrop(i) => Go(s.firing[i], Away, Gone)
    case Start(w) => Go(s.workers[w].task, Fresh, Busy)
    case NoHandler(w) => Go(s.workers[w].task, Busy, Bad)
    case HandlerOk(w) => Go(s.workers[w].task, Busy, Good)
    case HandlerErr(w) => Go(s.workers[w].task, Busy, Read)
    case Store(w) => Go(s.workers[w].task, Read, Written)
    case Decide(w) => Go(s.workers[w].task, Written, if MayRetry(s.records[s.workers[w].task]) then Away else Bad)
    case Count(w) => Go(s.workers[w].task, if s.workers[w].ok then Good else Bad, Gone)
    case _ => Stay
  }

  /** The ways of a task through the pool. */
  predicate IsMove(m: Move) {
    m.Go? && (m.from, m.dest) in {
      (Gone, Queued), (Gone, Fresh), (Queued, Fresh), (Away, Fresh), (Away, Gone), (Fresh, Busy), (Busy, Bad),
      (Busy, Good), (Busy, Read), (Read, Written), (Written, Away), (Written, Bad), (Good, Gone), (Bad, Gone)
    }
  }

  function Out(m: Move, t: TaskId, p: Place): nat {
    if m.Go? && m.t == t && m.from == p then 1 else 0
  }

  function In(m: Move, t: TaskId, p: Place): nat {
    if m.Go? && m.t == t && m.dest == p then 1 else 0
  }

  lemma {:induction false} CrewUpdate(ws: seq<Worker>, i: nat, w: Worker, t: TaskId, p: Place)
    requires i < |ws|
    ensures Crew(ws[i := w], t, p) + (if Stands(ws[i], t, p) then 1 else 0)
            == Crew(ws, t, p) + (if Stands(w, t, p) then 1 else 0)
  {
    var n, ws' := |ws| - 1, ws[i := w];
    if i == n {
      assert ws'[..n] == ws[..n];
    } else {
      assert ws'[..n] == ws[..n][i := w];
      CrewUpdate(ws[..n], i, w, t, p);
    }
  }

  lemma CrewHas(ws: seq<Worker>, w: nat, t: TaskId, p: Place)
    requires w < |ws| && Stands(ws[w], t, p)
    ensures Crew(ws, t, p) >= 1
  {
    CrewUpdate(ws, w, Idle, t, p);
  }

  lemma {:induction false} CrewHolders(ws: seq<Worker>, t: TaskId)
    ensures Holders(ws, t)
            == Crew(ws, t, Fresh) + Crew(ws, t, Busy) + Crew(ws, t, Read) + Crew(ws, t, Written) + Crew(ws, t, Good)
               + Crew(ws, t, Bad)
  {
    if ws != [] {
      CrewHolders(ws[..|ws| - 1], t);
    }
  }

  lemma InPoolIs(s: State, t: TaskId)
    ensures InPool(s, t) == Spots(s, t)
  {
    CrewHolders(s.workers, t);
  }

  lemma MovesClient(s: State, a: Action, t: TaskId, p: Place)
    requires Enabled(s, a) && p != Gone
    requires a.Prepare? || a.Register? || a.Send? || a.SendDirect? || a.Bump? || a.Cancel?
    ensures Number(Next(s, a), t, p) + Out(MoveOf(s, a), t, p) == Number(s, t, p) + In(MoveOf(s, a), t, p)
  {
    if a.Send? {
      OccursAppend(s.tasks, a.t, t);
    } else if a.SendDirect? {
      CrewUpdate(s.workers, a.w, Taken(a.t), t, p);
    }
  }

  lemma MovesTake(s: State, a: Action, t: TaskId, p: Place)
    requires Enabled(s, a) && p != Gone && (a.TakeTask? || a.TakeRetry?)
    ensures Number(Next(s, a), t, p) + Out(MoveOf(s, a), t, p) == Number(s, t, p) + In(MoveOf(s, a), t, p)
  {
    var from := if a.TakeTask? then s.tasks else s.retry;
    assert from[1..] == Without(from, 0);
    OccursWithout(from, 0, t);
    CrewUpdate(s.workers, a.w, Taken(from[0]), t, p);
  }

  lemma MovesTimer(s: State, a: Action, t: TaskId, p: Place)
    requires Enabled(s, a) && p != Gone && (a.RetrySend? || a.RetryDirect? || a.RetryDrop?)
    ensures Number(Next(s, a), t, p) + Out(MoveOf(s, a), t, p) == Number(s, t, p) + In(MoveOf(s, a), t, p)
  {
    OccursWithout(s.firing, a.i, t);
    OccursAppend(s.retry, s.firing[a.i], t);
    if a.RetryDirect? {
      CrewUpdate(s.workers, a.w, Taken(s.firing[a.i]), t, p);
    }
  }

  lemma MovesFire(s: State, i: nat, t: TaskId, p: Place)
    requires Enabled(s, Fire(i)) && p != Gone
    ensures Number(Next(s, Fire(i)), t, p) == Number(s, t, p)
  {
    OccursWithout(s.sleeping, i, t);
    OccursAppend(s.firing, s.sleeping[i], t);
  }

  /** Where a step of worker w, other than a receive, leaves it. */
  function AfterWork(s: State, a: Action): Worker
    requires Enabled(s, a)
    requires ByWorker(a)
  {
    match a
    case Start(w) => Handling(s.workers[w].task)
    case NoHandler(w) => Finishing(s.workers[w].task, false)
    case HandlerOk(w) => Finishing(s.workers[w].task, true)
    case HandlerErr(w) => Failing(s.workers[w].task, s.records[s.workers[w].task].retries)
    case Store(w) => Deciding(s.workers[w].task)
    case Decide(w) => if MayRetry(s.records[s.workers[w].task]) then Leaving else Finishing(s.workers[w].task, false)
    case Count(w) => Leaving
    case Leave(w) => Idle
    case Exit(w) => Exited
  }

  predicate ByWorker(a: Action) {
    || a.Start? || a.NoHandler? || a.HandlerOk? || a.HandlerErr? || a.Store? || a.Decide? || a.Count? || a.Leave?
    || a.Exit?
  }

  lemma WorkDone(s: State, a: Action)
    requires Enabled(s, a) && ByWorker(a)
    ensures var s' := Next(s, a);
            && s'.workers == s.workers[a.w := AfterWork(s, a)]
            && s'.tasks == s.tasks && s'.retry == s.retry && s'.firing == s.firing
            && s'.sleeping == s.sleeping + (if a.Decide? && AfterWork(s, a).Leaving? then [s.workers[a.w].task] else [])
  {
  }

  lemma WorkerMoves(s: State, s': State, w: nat, next: Worker, slept: seq<TaskId>, t: TaskId, p: Place)
    requires w < |s.workers| && p != Gone && s'.workers == s.workers[w := next]
    requires s'.tasks == s.tasks && s'.retry == s.retry && s'.firing == s.firing
    requires s'.sleeping == s.sleeping + slept && |slept| <= 1
    ensures Number(s', t, p) + (if Stands(s.workers[w], t, p) then 1 else 0)
            == Number(s, t, p) + (if Stands(next, t, p) then 1 else 0) + (if p == Away && slept == [t] then 1 else 0)
  {
    CrewUpdate(s.workers, w, next, t, p);
    if slept == [] {
      assert s'.sleeping == s.sleeping;
    } else {
      OccursAppend(s.sleeping, slept[0], t);
    }
  }

  lemma MovesWork(s: State, a: Action, t: TaskId, p: Place)
    requires Enabled(s, a) && p != Gone && ByWorker(a)
    ensures Number(Next(s, a), t, p) + Out(MoveOf(s, a), t, p) == Number(s, t, p) + In(MoveOf(s, a), t, p)
  {
    var next := AfterWork(s, a);
    WorkDone(s, a);
    WorkerMoves(s, Next(s, a), a.w, next, if a.Decide? && next.Leaving? then [s.workers[a.w].task] else [], t, p);
  }

  /** The places of t before and after a move. */
  ghost predicate Moved(s: State, s': State, t: TaskId, m: Move) {
    forall p | p != Gone :: Number(s', t, p) + Out(m, t, p) == Number(s, t, p) + In(m, t, p)
  }

  /** Every step moves the one submission that MoveOf names, and no other. */
  lemma MovesOne(s: State, a: Action, t: TaskId)
    requires Enabled(s, a)
    ensures Moved(s, Next(s, a), t, MoveOf(s, a))
  {
    forall p | p != Gone
      ensures Number(Next(s, a), t, p) + Out(MoveOf(s, a), t, p) == Number(s, t, p) + In(MoveOf(s, a), t, p)
    {
      if a.Fire? {
        MovesFire(s, a.i, t, p);
      } else if a.RetrySend? || a.RetryDirect? || a.RetryDrop? {
        MovesTimer(s, a, t, p);
      } else if a.TakeTask? || a.TakeRetry? {
        MovesTake(s, a, t, p);
      } else if ByWorker(a) {
        MovesWork(s, a, t, p);
      } else {
        MovesClient(s, a, t, p);
      }
    }
  }

  /** A worker that is about to write `Retries` has been before, or reads it in this step. */
  lemma FailingWorker(s: State, a: Action, v: nat)
    requires Enabled(s, a) && v < |Next(s, a).workers| && Next(s, a).workers[v].Failing?
    ensures v < |s.workers|
    ensures var w := Next(s, a).workers[v];
            w == s.workers[v] || (w.task in s.records && w.seen == s.records[w.task].retries && a == HandlerErr(v))
  {
  }

  lemma {:induction false} IdleCrew(n: nat, t: TaskId, p: Place)
    ensures Crew(seq(n, _ => Idle), t, p) == 0
  {
    if n > 0 {
      assert seq(n, _ => Idle)[..n - 1] == seq(n - 1, _ => Idle);
      IdleCrew(n - 1, t, p);
    }
  }

  lemma NothingAtFirst(capacity: nat, workers: nat, t: TaskId)
    ensures InPool(Init(capacity, workers), t) == 0
  {
    forall p | p != Gone ensures Number(Init(capacity, workers), t, p) == 0 {
      IdleCrew(workers, t, p);
    }
  }
}
