/** How often the pool runs the handler of a task whose clients leave it alone while the pool holds it, and what its
    status says. */
module PoolRetries {
  import opened PoolProtocol
  import opened PoolSafety
  import opened PoolPlaces

  /** The discipline of task pointer t: its client does not write or submit it while the pool holds it. */
  predicate Owned(s: State, a: Action, t: TaskId) {
    (a.Prepare? || a.Send? || a.SendDirect?) && a.t == t ==> Spots(s, t) == 0
  }

  /** A run in which the clients of t keep the discipline, whatever those of other tasks do. */
  ghost predicate IsOwnedRun(s: State, run: seq<Action>, t: TaskId)
    decreases |run|
  {
    run == [] || (Enabled(s, run[0]) && Owned(s, run[0], t) && IsOwnedRun(Next(s, run[0]), run[1..], t))
  }

  function Max(a: int, b: int): int {
    if a < b then b else a
  }

  /** Handler runs a submission can get. With base 0 and a limit of at least 0 this is limit + 1. */
  function Budget(k: Ticket): int {
    Max(1, k.limit - k.base + 1)
  }

  /** Between handler runs: each run so far was a failure that was granted a retry. */
  predicate Waiting(r: Task, k: Ticket) {
    r.retries == k.base + k.runs && (k.runs == 0 || r.retries <= k.limit)
  }

  /** The handler has returned with a failure, and `Retries` does not show it yet. */
  predicate HasRead(r: Task, k: Ticket) {
    r.retries == k.base + k.runs - 1 && k.runs >= 1 && (k.runs == 1 || r.retries <= k.limit)
  }

  predicate HasWritten(r: Task, k: Ticket) {
    r.retries == k.base + k.runs && k.runs >= 1 && (k.runs == 1 || r.retries - 1 <= k.limit)
  }

  predicate FailedByHandler(r: Task, k: Ticket) {
    r.retries == k.base + k.runs && r.retries == Max(k.base, k.limit) + 1 && k.runs == Budget(k)
  }

  predicate Succeeded(r: Task, k: Ticket) {
    r.retries == k.base + k.runs - 1 && k.runs >= 1
  }

  /** What record and ticket of a task say when it stands at p. */
  predicate AccountsAt(p: Place, r: Task, k: Ticket) {
    && r.maxRetries == k.limit
    && match p
       case Good => Succeeded(r, k)
       case Bad => Waiting(r, k) || FailedByHandler(r, k)
       case Read => HasRead(r, k)
       case Written => HasWritten(r, k)
       case _ => Waiting(r, k)
  }

  ghost predicate Account(s: State, t: TaskId) {
    && InPool(s, t) <= 1
    && (t in s.log.tickets ==> s.log.tickets[t].runs <= Budget(s.log.tickets[t]))
    && (forall p | p != Gone && Number(s, t, p) == 1 ::
          t in s.records && t in s.log.tickets && AccountsAt(p, s.records[t], s.log.tickets[t]))
  }

  /** Workers about to write the `Retries` of t have read its present value. */
  ghost predicate ReadsAreFresh(s: State, t: TaskId) {
    forall w | 0 <= w < |s.workers| && s.workers[w].Failing? && s.workers[w].task == t ::
      t in s.records && s.workers[w].seen == s.records[t].retries
  }

  /** The move takes t from one place to another. */
  predicate Takes(m: Move, t: TaskId, from: Place, dest: Place) {
    m == Go(t, from, dest)
  }

  /** What becomes of record and ticket of t in a step with the given move, if it is not a write by the client. */
  predicate Booked(s: State, s': State, t: TaskId, m: Move) {
    && (t in s.records ==>
          && t in s'.records
          && s'.records[t].maxRetries == s.records[t].maxRetries
          && s'.records[t].retries == s.records[t].retries + (if Takes(m, t, Read, Written) then 1 else 0)
          && (Takes(m, t, Written, Away) ==> MayRetry(s.records[t]))
          && (Takes(m, t, Written, Bad) ==> !MayRetry(s.records[t])))
    && if Takes(m, t, Gone, Queued) || Takes(m, t, Gone, Fresh)
       then t in s.records && t in s'.log.tickets
            && s'.log.tickets[t] == Ticket(s.records[t].retries, s.records[t].maxRetries, 0)
       else (t in s.log.tickets <==> t in s'.log.tickets)
            && (t in s.log.tickets ==>
                  s'.log.tickets[t] == if Takes(m, t, Busy, Good) || Takes(m, t, Busy, Read)
                                       then s.log.tickets[t].(runs := s.log.tickets[t].runs + 1)
                                       else s.log.tickets[t])
  }

  lemma BookedStep(s: State, a: Action, t: TaskId)
    requires Enabled(s, a) && !(a.Prepare? && a.t == t)
    requires a.Store? ==> s.workers[a.w].seen == s.records[s.workers[a.w].task].retries || s.workers[a.w].task != t
    ensures Booked(s, Next(s, a), t, MoveOf(s, a))
  {
    if ByWorker(a) {
      BookedByWorker(s, a, t);
    }
  }

  lemma BookedByWorker(s: State, a: Action, t: TaskId)
    requires Enabled(s, a) && ByWorker(a)
    requires a.Store? ==> s.workers[a.w].seen == s.records[s.workers[a.w].task].retries || s.workers[a.w].task != t
    ensures Booked(s, Next(s, a), t, MoveOf(s, a))
  {
    if a.HandlerOk? || a.HandlerErr? || a.Store? || a.Decide? {
      BookedAfterReturn(s, a, t);
    }
  }

  lemma BookedAfterReturn(s: State, a: Action, t: TaskId)
    requires Enabled(s, a) && (a.HandlerOk? || a.HandlerErr? || a.Store? || a.Decide?)
    requires a.Store? ==> s.workers[a.w].seen == s.records[s.workers[a.w].task].retries || s.workers[a.w].task != t
    ensures Booked(s, Next(s, a), t, MoveOf(s, a))
  {
  }

  /** The only submission of a task stands at p. */
  ghost predicate OnlyAt(s: State, t: TaskId, p: Place) {
    forall q | q != Gone :: Number(s, t, q) == if q == p then 1 else 0
  }

  lemma OnlyAtCounts(s: State, t: TaskId, p: Place)
    requires OnlyAt(s, t, p)
    ensures InPool(s, t) == if p == Gone then 0 else 1
  {
  }

  lemma OnlyOne(s: State, t: TaskId, p: Place)
    requires InPool(s, t) <= 1 && if p == Gone then InPool(s, t) == 0 else Number(s, t, p) >= 1
    ensures OnlyAt(s, t, p)
  {
  }

  lemma MovesOnly(s: State, s': State, t: TaskId, m: Move)
    requires InPool(s, t) <= 1 && Moved(s, s', t, m)
    requires m.Go? && m.t == t && IsMove(m) && (m.from == Gone ==> InPool(s, t) == 0)
    ensures OnlyAt(s, t, m.from) && OnlyAt(s', t, m.dest)
  {
    assert m.from != Gone ==> Number(s', t, m.from) + 1 == Number(s, t, m.from);
    OnlyOne(s, t, m.from);
    MovesOnlyOne(s, s', t, m);
  }

  lemma MovesOnlyOne(s: State, s': State, t: TaskId, m: Move)
    requires m.Go? && m.t == t && IsMove(m) && OnlyAt(s, t, m.from) && Moved(s, s', t, m)
    ensures OnlyAt(s', t, m.dest)
  {
    forall q | q != Gone ensures Number(s', t, q) == if q == m.dest then 1 else 0 {
      assert Number(s', t, q) + Out(m, t, q) == Number(s, t, q) + In(m, t, q);
    }
  }

  lemma AccountMoved(s: State, s': State, t: TaskId, m: Move)
    requires Account(s, t) && Moved(s, s', t, m) && Booked(s, s', t, m)
    requires m.Go? && m.t == t && IsMove(m) && (m.from == Gone ==> InPool(s, t) == 0)
    ensures Account(s', t)
  {
    MovesOnly(s, s', t, m);
    OnlyAtCounts(s', t, m.dest);
    assert m.from != Gone ==> Number(s, t, m.from) == 1;
  }

  lemma AccountUnmoved(s: State, s': State, t: TaskId, m: Move)
    requires Account(s, t) && Moved(s, s', t, m) && Booked(s, s', t, m) && !(m.Go? && m.t == t)
    ensures Account(s', t)
  {
    assert forall p | p != Gone :: Number(s', t, p) == Number(s, t, p);
  }

  lemma MoveIsOwned(s: State, a: Action, t: TaskId)
    requires Enabled(s, a) && Owned(s, a, t)
    ensures var m := MoveOf(s, a);
            m.Go? && m.t == t ==> IsMove(m) && (m.from == Gone ==> InPool(s, t) == 0 && t in s.records)
  {
    InPoolIs(s, t);
  }

  lemma AccountStep(s: State, a: Action, t: TaskId)
    requires Enabled(s, a) && Owned(s, a, t) && Account(s, t) && ReadsAreFresh(s, t)
    ensures Account(Next(s, a), t)
  {
    MovesOne(s, a, t);
    if a.Prepare? && a.t == t {
      InPoolIs(s, t);
    } else {
      MoveIsOwned(s, a, t);
      var m := MoveOf(s, a);
      BookedStep(s, a, t);
      if m.Go? && m.t == t {
        AccountMoved(s, Next(s, a), t, m);
      } else {
        AccountUnmoved(s, Next(s, a), t, m);
      }
    }
  }

  /** Whoever is about to write the `Retries` of t is its only holder. */
  lemma OnlyWriter(s: State, w: nat, v: nat, t: TaskId)
    requires InPool(s, t) <= 1 && w < |s.workers| && v < |s.workers|
    requires Stands(s.workers[w], t, Read) && Stands(s.workers[v], t, Read)
    ensures v == w
  {
    if v != w {
      CrewUpdate(s.workers, w, Idle, t, Read);
      CrewHas(s.workers[w := Idle], v, t, Read);
    }
  }

  /** The `Retries` of t in a step that is no write by its client. */
  lemma RetriesStep(s: State, a: Action, t: TaskId)
    requires Enabled(s, a) && t in s.records && !(a.Prepare? && a.t == t) && !(a.Store? && s.workers[a.w].task == t)
    ensures t in Next(s, a).records && Next(s, a).records[t].retries == s.records[t].retries
  {
  }

  lemma FreshStep(s: State, a: Action, t: TaskId)
    requires Enabled(s, a) && Owned(s, a, t) && Account(s, t) && ReadsAreFresh(s, t)
    ensures ReadsAreFresh(Next(s, a), t)
  {
    var s' := Next(s, a);
    forall v | 0 <= v < |s'.workers| && s'.workers[v].Failing? && s'.workers[v].task == t
      ensures t in s'.records && s'.workers[v].seen == s'.records[t].retries
    {
      FailingWorker(s, a, v);
      if a != HandlerErr(v) {
        CrewHas(s.workers, v, t, Read);
        InPoolIs(s, t);
        if a.Store? && s.workers[a.w].task == t {
          OnlyWriter(s, a.w, v, t);
        }
      }
      RetriesStep(s, a, t);
    }
  }

  lemma {:induction false} AccountRun(s: State, run: seq<Action>, t: TaskId)
    requires Account(s, t) && ReadsAreFresh(s, t) && IsOwnedRun(s, run, t)
    ensures IsRun(s, run) && Account(Exec(s, run), t) && ReadsAreFresh(Exec(s, run), t)
    decreases |run|
  {
    if run != [] {
      AccountStep(s, run[0], t);
      FreshStep(s, run[0], t);
      AccountRun(Next(s, run[0]), run[1..], t);
    }
  }

  /** In every interleaving in which the clients of t keep the discipline, the handler returns at most Budget times
      for a submission, so at most MaxRetries + 1 times for a task submitted with no retries used. */
  lemma RetryBudget(capacity: nat, workers: nat, run: seq<Action>, t: TaskId)
    requires IsOwnedRun(Init(capacity, workers), run, t)
    ensures IsRun(Init(capacity, workers), run)
    ensures var s := Exec(Init(capacity, workers), run);
            t in s.log.tickets ==>
              var k := s.log.tickets[t];
              k.runs <= Budget(k) && (k.base == 0 && k.limit >= 0 ==> k.runs <= k.limit + 1)
  {
    NothingAtFirst(capacity, workers, t);
    AccountRun(Init(capacity, workers), run, t);
  }

  /** What comes of the failure of a handler. */
  ghost predicate FailsOnlyAtTheLimit(s: State, w: nat)
    requires Enabled(s, Decide(w))
  {
    var t := s.workers[w].task;
    var s' := Next(s, Decide(w));
    && t in s.log.tickets
    && var k := s.log.tickets[t];
    && (s'.workers[w] == Finishing(t, false) <==> s.records[t].retries == Max(k.base, k.limit) + 1)
    && (s'.workers[w] == Finishing(t, false) <==> k.runs == Budget(k))
    && (s'.workers[w] != Finishing(t, false) ==> s'.sleeping == s.sleeping + [t])
  }

  lemma FailureStep(s: State, w: nat)
    requires Enabled(s, Decide(w)) && Account(s, s.workers[w].task)
    ensures FailsOnlyAtTheLimit(s, w)
  {
    CrewHas(s.workers, w, s.workers[w].task, Written);
  }

  /** In every such interleaving a failing handler fails its task for good exactly when that has brought `Retries` to
      one above both MaxRetries and the value it was submitted with; by then the handler has used its whole budget. */
  lemma FailsAtTheLimit(capacity: nat, workers: nat, run: seq<Action>, w: nat, t: TaskId)
    requires IsOwnedRun(Init(capacity, workers), run, t)
    ensures IsRun(Init(capacity, workers), run)
    ensures var s := Exec(Init(capacity, workers), run);
            Enabled(s, Decide(w)) && s.workers[w].task == t ==> FailsOnlyAtTheLimit(s, w)
  {
    var s0 := Init(capacity, workers);
    NothingAtFirst(capacity, workers, t);
    AccountRun(s0, run, t);
    var s := Exec(s0, run);
    if Enabled(s, Decide(w)) && s.workers[w].task == t {
      FailureStep(s, w);
    }
  }

  // The status of a task

  /** The status field agrees with the place of the task. */
  predicate StatusFits(s: State, t: TaskId) {
    InPool(s, t) == 1 && t in s.records ==>
      var status := s.records[t].status;
      && (Number(s, t, Away) == 1 ==> status == Retry)
      && (Number(s, t, Busy) + Number(s, t, Read) + Number(s, t, Written) == 1 ==> status == Running)
      && (Number(s, t, Good) == 1 ==> status == Completed)
      && (Number(s, t, Bad) == 1 ==> status == Failed)
  }

  /** What a step with the given move writes to the status of t, if it is not a write by the client. */
  predicate StatusWritten(s: State, s': State, t: TaskId, m: Move) {
    t in s.records ==>
      && t in s'.records
      && s'.records[t].status
         == if Takes(m, t, Fresh, Busy) then Running
            else if Takes(m, t, Busy, Good) then Completed
            else if Takes(m, t, Busy, Bad) || Takes(m, t, Written, Bad) then Failed
            else if Takes(m, t, Written, Away) then Retry
            else s.records[t].status
  }

  lemma StatusStep(s: State, a: Action, t: TaskId)
    requires Enabled(s, a) && !(a.Prepare? && a.t == t)
    ensures StatusWritten(s, Next(s, a), t, MoveOf(s, a))
  {
  }

  lemma StatusMoved(s: State, s': State, t: TaskId, m: Move)
    requires Account(s, t) && StatusFits(s, t) && Moved(s, s', t, m) && StatusWritten(s, s', t, m)
    requires m.Go? && m.t == t ==> IsMove(m) && (m.from == Gone ==> InPool(s, t) == 0 && t in s.records)
    ensures StatusFits(s', t)
  {
    if m.Go? && m.t == t {
      MovesOnly(s, s', t, m);
    } else {
      assert forall p | p != Gone :: Number(s', t, p) == Number(s, t, p);
    }
  }

  lemma StatusKept(s: State, a: Action, t: TaskId)
    requires Enabled(s, a) && Owned(s, a, t) && Account(s, t) && StatusFits(s, t)
    ensures StatusFits(Next(s, a), t)
  {
    MovesOne(s, a, t);
    if a.Prepare? && a.t == t {
      InPoolIs(s, t);
    } else {
      MoveIsOwned(s, a, t);
      StatusStep(s, a, t);
      StatusMoved(s, Next(s, a), t, MoveOf(s, a));
    }
  }

  lemma {:induction false} StatusRun(s: State, run: seq<Action>, t: TaskId)
    requires Account(s, t) && ReadsAreFresh(s, t) && StatusFits(s, t) && IsOwnedRun(s, run, t)
    ensures IsRun(s, run) && StatusFits(Exec(s, run), t)
    decreases |run|
  {
    if run != [] {
      AccountStep(s, run[0], t);
      FreshStep(s, run[0], t);
      StatusKept(s, run[0], t);
      StatusRun(Next(s, run[0]), run[1..], t);
    }
  }

  /** In every such interleaving a task waiting for a retry has status Retry, one with its handler Running, and one
      that is about to be counted Completed or Failed, as it will be counted. */
  lemma StatusAgrees(capacity: nat, workers: nat, run: seq<Action>, t: TaskId)
    requires IsOwnedRun(Init(capacity, workers), run, t)
    ensures IsRun(Init(capacity, workers), run)
    ensures StatusFits(Exec(Init(capacity, workers), run), t)
  {
    NothingAtFirst(capacity, workers, t);
    StatusRun(Init(capacity, workers), run, t);
  }
}
