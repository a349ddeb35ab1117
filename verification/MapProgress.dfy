/** What the executor's runs achieve: how much work they do, when sending can block for ever,
    and which calls can return. */
module MapProgress {
  import opened Chunking
  import opened Counting
  import opened MapExecutor

  // ----- How much work a run does -----

  function CallWeight(pool: Pool, cs: CallState, c: nat): int
    requires pool.Valid() && c < |pool.calls|
  {
    match cs
    case Waiting => 3 + 5 * |pool.ChunksOf(c)|
    case Admitted => 2 + 5 * |pool.ChunksOf(c)|
    case Sending(next) => 1 + 5 * (|pool.ChunksOf(c)| - next)
    case Collecting(_) => 1
    case _ => 0
  }

  function CallWork(pool: Pool, calls: seq<CallState>, n: nat): int
    requires pool.Valid() && n <= |calls| == |pool.calls|
  {
    if n == 0 then 0 else CallWork(pool, calls, n - 1) + CallWeight(pool, calls[n - 1], n - 1)
  }

  function WorkerWeight(w: Worker): int {
    match w case Taken(_) => 3 case Busy(_) => 2 case Paused(_) => 2 case _ => 0
  }

  /** How many steps are left at most, not counting idle turns of the workers' loops. */
  function Work(pool: Pool, s: State): int
    requires pool.Valid() && |s.calls| == |pool.calls|
  {
    CallWork(pool, s.calls, |s.calls|) + 4 * |s.queue| + Sum(WorkerWeight, s.workers) + |s.slots|
    + if s.running then 1 else 0
  }

  lemma {:induction false} CallWorkUpdate(pool: Pool, calls: seq<CallState>, n: nat, c: nat, x: CallState)
    requires pool.Valid() && n <= |calls| == |pool.calls| && c < |calls|
    ensures CallWork(pool, calls[c := x], n) - CallWork(pool, calls, n)
         == if c < n then CallWeight(pool, x, c) - CallWeight(pool, calls[c], c) else 0
  {
    if n == 0 {
    } else {
      CallWorkUpdate(pool, calls, n - 1, c, x);
    }
  }

  lemma {:induction false} CallWorkPositive(pool: Pool, s: State, n: nat)
    requires Shape(pool, s) && n <= |s.calls|
    ensures CallWork(pool, s.calls, n) >= 0
  {
    if n == 0 {
    } else {
      CallWorkPositive(pool, s, n - 1);
      assert CallOk(pool, s.calls[n - 1], n - 1);
    }
  }

  lemma CallStepWork(pool: Pool, s: State, step: Step, t: State)
    requires pool.Valid() && |s.calls| == |pool.calls| && NextStep(pool, s, step, t)
    requires step.Enter? || step.Begin? || step.Send? || step.Receive? || step.Return?
    ensures Work(pool, t) < Work(pool, s)
  {
    CallWorkUpdate(pool, s.calls, |s.calls|, step.c, t.calls[step.c]);
    assert t.calls == s.calls[step.c := t.calls[step.c]];
    assert Sum(WorkerWeight, t.workers) == Sum(WorkerWeight, s.workers);
    if step.Receive? {
      ReceiveTakesReply(pool, s, step.c, t);
    }
  }

  lemma ReceiveTakesReply(pool: Pool, s: State, c: nat, t: State)
    requires pool.Valid() && NextStep(pool, s, Receive(c), t)
    ensures |t.slots| == |s.slots| - 1
  {
    var job := (c, |s.calls[c].got|);
    assert s.slots.Keys == t.slots.Keys + {job};
  }

  lemma WorkerStepWork(pool: Pool, s: State, step: Step, t: State)
    requires Inv(pool, s) && NextStep(pool, s, step, t) && (step.Take? || step.Acquire? || step.Finish?)
    ensures |t.calls| == |pool.calls| && Work(pool, t) < Work(pool, s)
  {
    assert t.calls == s.calls;
    SumUpdate(WorkerWeight, s.workers, step.w, t.workers[step.w]);
    if step.Finish? {
      FinishAddsReply(pool, s, step.w, t);
    }
  }

  lemma IdleStepWork(pool: Pool, s: State, step: Step, t: State)
    requires pool.Valid() && |s.calls| == |pool.calls| && NextStep(pool, s, step, t) && Idling(step)
    ensures |t.calls| == |pool.calls| && Work(pool, t) == Work(pool, s)
  {
    assert t == s.(workers := t.workers, gil := t.gil);
    SumUpdate(WorkerWeight, s.workers, step.w, t.workers[step.w]);
  }

  lemma StepWork(pool: Pool, s: State, step: Step, t: State)
    requires Inv(pool, s) && NextStep(pool, s, step, t)
    ensures |t.calls| == |pool.calls| &&
        if Idling(step) then Work(pool, t) == Work(pool, s) else Work(pool, t) < Work(pool, s)
  {
    if Idling(step) {
      IdleStepWork(pool, s, step, t);
    } else if OfWorker(step) {
      WorkerStepWork(pool, s, step, t);
    } else if !step.Shutdown? {
      CallStepWork(pool, s, step, t);
    }
  }

  lemma HeldHasNoReply(pool: Pool, s: State, w: nat)
    requires pool.Valid() && |s.calls| == |pool.calls| && EachOnce(pool, s) && w < |s.workers| && HasJob(s.workers[w])
    ensures s.workers[w].job !in s.slots
  {
    var job := s.workers[w].job;
    SumAtLeast(Holds(job), s.workers, w);
    assert Places(s, job) <= 1;
  }

  lemma FinishAddsReply(pool: Pool, s: State, w: nat, t: State)
    requires Inv(pool, s) && NextStep(pool, s, Finish(w), t)
    ensures |t.slots| == |s.slots| + 1
  {
    var job := s.workers[w].job;
    HeldHasNoReply(pool, s, w);
    assert t.slots.Keys == s.slots.Keys + {job};
    assert |t.slots.Keys| == |t.slots| && |s.slots.Keys| == |s.slots|;
  }

  ghost predicate IdleStep(pool: Pool, s: State, t: State)
    requires pool.Valid()
  {
    exists step :: Idling(step) && NextStep(pool, s, step, t)
  }

  /** How many of the first `i` steps did something. */
  ghost function Moves(pool: Pool, trace: seq<State>, i: nat): nat
    requires pool.Valid() && i < |trace|
  {
    if i == 0 then 0 else Moves(pool, trace, i - 1) + if IdleStep(pool, trace[i - 1], trace[i]) then 0 else 1
  }

  /** No path does more steps than the work of its first state, apart from idle turns. */
  lemma {:induction false} WorkIsBounded(pool: Pool, path: seq<State>, i: nat)
    requires IsPath(pool, path) && Inv(pool, path[0]) && i < |path|
    ensures Inv(pool, path[i])
    ensures Moves(pool, path, i) <= Work(pool, path[0]) - Work(pool, path[i]) && 0 <= Work(pool, path[i])
  {
    if i == 0 {
    } else {
      WorkIsBounded(pool, path, i - 1);
      assert Next(pool, path[i - 1], path[i - 1 + 1]);
      var step :| NextStep(pool, path[i - 1], step, path[i]);
      StepInv(pool, path[i - 1], step, path[i]);
      StepWork(pool, path[i - 1], step, path[i]);
    }
    WorkNonNegative(pool, path[i]);
  }

  lemma WorkNonNegative(pool: Pool, s: State)
    requires Inv(pool, s)
    ensures Work(pool, s) >= 0
  {
    CallWorkPositive(pool, s, |s.calls|);
    SumNonNegative(WorkerWeight, s.workers);
  }

  // ----- Progress -----

  ghost predicate AllDone(s: State) {
    forall c :: 0 <= c < |s.calls| ==> s.calls[c].Returned? || s.calls[c].Rejected?
  }

  /** Without the lock this worker cannot reach the queue again. */
  predicate Stuck(running: bool, w: Worker) {
    w.Taken? || w.Woken? || w.Paused? || w.Stopped? || (w.Ready? && !running)
  }

  /** A call waits, with the lock, for room in a full queue, and no worker can make room without it. */
  ghost predicate SendBlocked(pool: Pool, s: State) {
    && s.gil.CallHolds? && !HasRoom(pool, s)
    && forall w :: 0 <= w < |s.workers| ==> Stuck(s.running, s.workers[w])
  }

  /** A running executor can get from `s` to `t` and has then done some of its work. */
  ghost predicate Advances(pool: Pool, s: State, t: State)
    requires pool.Valid() && |s.calls| == |pool.calls|
  {
    Leads(pool, s, t) && Inv(pool, t) && t.running && Work(pool, t) < Work(pool, s)
  }

  /** Nobody has started sending since, and call `c` is still collecting or has returned. */
  ghost predicate Serves(s: State, c: nat) {
    !s.gil.CallHolds? && c < |s.calls| && (s.calls[c].Collecting? || s.calls[c].Returned?)
  }

  lemma WorkNow(pool: Pool, s: State, m: State, step: Step, t: State)
    requires Inv(pool, s) && Leads(pool, s, m) && |m.calls| == |pool.calls| && Work(pool, m) == Work(pool, s) &&
        m.running
    requires NextStep(pool, m, step, t) && !step.Shutdown? && !Idling(step)
    ensures Advances(pool, s, t)
  {
    LeadsInv(pool, s, m);
    LeadsStep(pool, s, m, step, t);
    StepInv(pool, m, step, t);
    StepWork(pool, m, step, t);
  }

  /** One idle step further. */
  lemma IdleOn(pool: Pool, s: State, m: State, step: Step, t: State)
    requires Inv(pool, s) && Leads(pool, s, m) && |m.calls| == |pool.calls| && Work(pool, m) == Work(pool, s)
    requires NextStep(pool, m, step, t) && Idling(step)
    ensures Leads(pool, s, t) && |t.calls| == |pool.calls| && Work(pool, t) == Work(pool, s)
  {
    LeadsStep(pool, s, m, step, t);
    IdleStepWork(pool, m, step, t);
  }

  /** A worker that can get to the queue takes its head. */
  lemma TakeSoon(pool: Pool, s: State, w: nat)
    requires Inv(pool, s) && s.running && s.queue != [] && w < |s.workers|
    requires s.workers[w].Ready? || s.workers[w].Polling? || (s.workers[w].Woken? && s.gil == Free)
    ensures var t := s.(queue := s.queue[1..], workers := s.workers[w := Taken(s.queue[0])]); Advances(pool, s, t)
  {
    var ready := s.(workers := s.workers[w := Ready]);
    var polling := s.(workers := s.workers[w := Polling]);
    LeadsNowhere(pool, s);
    if s.workers[w].Woken? {
      IdleOn(pool, s, s, Wake(w), ready);
      IdleOn(pool, s, ready, Poll(w), polling);
    } else if s.workers[w].Ready? {
      assert s == ready;
      IdleOn(pool, s, ready, Poll(w), polling);
    } else {
      assert s == polling;
    }
    var t := s.(queue := s.queue[1..], workers := s.workers[w := Taken(s.queue[0])]);
    assert polling.workers[w := Taken(s.queue[0])] == t.workers;
    WorkNow(pool, s, polling, Take(w), t);
  }

  lemma JobIsKnown(pool: Pool, s: State, w: nat)
    requires Inv(pool, s) && w < |s.workers| && HasJob(s.workers[w])
    ensures var job := s.workers[w].job; job.0 < |pool.calls| && job.1 < |pool.ChunksOf(job.0)|
  {
    var job := s.workers[w].job;
    SumAtLeast(Holds(job), s.workers, w);
    assert Places(s, job) >= 1;
    assert Outstanding(pool, s, job);
    assert CallOk(pool, s.calls[job.0], job.0);
  }

  /** A chunk in a worker's hands can be run whenever no call has the lock. */
  lemma RunJob(pool: Pool, s: State, w: nat)
    requires Inv(pool, s) && s.running && w < |s.workers| && HasJob(s.workers[w])
    requires s.gil == if s.workers[w].Busy? then WorkerHolds(w) else Free
    ensures exists t :: Advances(pool, s, t) && !t.gil.CallHolds? && t.calls == s.calls
  {
    LeadsNowhere(pool, s);
    var job := s.workers[w].job;
    var busy := s.(workers := s.workers[w := Busy(job)], gil := WorkerHolds(w));
    if s.workers[w].Taken? {
      WorkNow(pool, s, s, Acquire(w), busy);
      assert Advances(pool, s, busy) && busy.calls == s.calls;
    } else {
      if s.workers[w].Paused? {
        IdleOn(pool, s, s, Resume(w), busy);
      } else {
        assert s == busy;
      }
      LeadsInv(pool, s, busy);
      JobIsKnown(pool, busy, w);
      var t := busy.(workers := busy.workers[w := Ready], slots := busy.slots[job := pool.Reply(job.0, job.1)],
          gil := Free);
      WorkNow(pool, s, busy, Finish(w), t);
      assert Advances(pool, s, t) && t.calls == s.calls;
    }
  }

  lemma CollectNow(pool: Pool, s: State, c: nat)
    requires Inv(pool, s) && s.running && c < |s.calls| && s.calls[c].Collecting? && s.gil == Free
    requires forall w :: 0 <= w < |s.workers| ==> !HasJob(s.workers[w])
    ensures exists t :: Advances(pool, s, t) && Serves(t, c)
  {
    LeadsNowhere(pool, s);
    var got := s.calls[c].got;
    var job := (c, |got|);
    assert CallOk(pool, s.calls[c], c);
    if |got| == |pool.ChunksOf(c)| {
      var t := s.(calls := s.calls[c := Returned(Merge(got))]);
      WorkNow(pool, s, s, Return(c), t);
      assert Serves(t, c);
    } else if job in s.slots {
      var t := s.(calls := s.calls[c := Collecting(got + [s.slots[job]])], slots := s.slots - {job});
      WorkNow(pool, s, s, Receive(c), t);
      assert Serves(t, c);
    } else {
      assert Outstanding(pool, s, job);
      assert Places(s, job) == 1;
      SumUniform(Holds(job), s.workers, 0);
      assert s.queue != [];
      TakeSoon(pool, s, 0);
      assert Serves(s.(queue := s.queue[1..], workers := s.workers[0 := Taken(s.queue[0])]), c);
    }
  }

  /** A call that has sent all its chunks can be brought further without any other call's help. */
  lemma ProgressOf(pool: Pool, s: State, c: nat)
    requires Inv(pool, s) && s.running && Serves(s, c) && s.calls[c].Collecting?
    ensures exists t :: Advances(pool, s, t) && Serves(t, c)
  {
    if s.gil.WorkerHolds? {
      RunJob(pool, s, s.gil.worker);
    } else if w :| 0 <= w < |s.workers| && HasJob(s.workers[w]) {
      RunJob(pool, s, w);
    } else {
      CollectNow(pool, s, c);
    }
  }

  lemma SendEnabled(pool: Pool, s: State, c: nat)
    requires Inv(pool, s) && s.gil == CallHolds(c) && HasRoom(pool, s)
    ensures exists t :: NextStep(pool, s, Send(c), t)
  {
    assert CallOk(pool, s.calls[c], c);
    var i := s.calls[c].next;
    var queue := s.queue + [(c, i)];
    var t := if i + 1 == |pool.ChunksOf(c)|
             then s.(queue := queue, calls := s.calls[c := Collecting([])], gil := Free)
             else s.(queue := queue, calls := s.calls[c := Sending(i + 1)]);
    assert NextStep(pool, s, Send(c), t);
  }

  lemma SendNow(pool: Pool, s: State, c: nat)
    requires Inv(pool, s) && s.running && s.gil == CallHolds(c) && HasRoom(pool, s)
    ensures exists t :: Advances(pool, s, t)
  {
    SendEnabled(pool, s, c);
    var t :| NextStep(pool, s, Send(c), t);
    LeadsNowhere(pool, s);
    WorkNow(pool, s, s, Send(c), t);
  }

  lemma EnterNow(pool: Pool, s: State, c: nat)
    requires Inv(pool, s) && s.running && s.gil == Free && c < |s.calls| &&
        (s.calls[c].Waiting? || s.calls[c].Admitted?)
    ensures exists t :: Advances(pool, s, t)
  {
    LeadsNowhere(pool, s);
    if s.calls[c].Admitted? {
      WorkNow(pool, s, s, Begin(c), s.(calls := s.calls[c := Sending(0)], gil := CallHolds(c)));
    } else {
      var next := if pool.calls[c].items == [] then Returned(Ok([])) else Admitted;
      WorkNow(pool, s, s, Enter(c), s.(calls := s.calls[c := next]));
    }
  }

  /** While the executor runs, unless every call is done or sending is blocked, work can be done. */
  lemma Progress(pool: Pool, s: State)
    requires Inv(pool, s) && s.running && !AllDone(s) && !SendBlocked(pool, s)
    ensures exists t :: Advances(pool, s, t)
  {
    if s.gil.WorkerHolds? {
      RunJob(pool, s, s.gil.worker);
    } else if s.gil.CallHolds? {
      if HasRoom(pool, s) {
        SendNow(pool, s, s.gil.call);
      } else {
        var w :| 0 <= w < |s.workers| && !Stuck(s.running, s.workers[w]);
        TakeSoon(pool, s, w);
      }
    } else {
      var c :| 0 <= c < |s.calls| && !s.calls[c].Returned? && !s.calls[c].Rejected?;
      if s.calls[c].Waiting? || s.calls[c].Admitted? {
        EnterNow(pool, s, c);
      } else {
        ProgressOf(pool, s, c);
      }
    }
  }

  /** A blocked call stays blocked: from there on only replies already sent can be received. */
  lemma BlockedForever(pool: Pool, s: State, step: Step, t: State)
    requires Inv(pool, s) && SendBlocked(pool, s) && NextStep(pool, s, step, t)
    ensures SendBlocked(pool, t) && t.gil == s.gil && (step.Receive? || step.Poll?)
  {
  }

  // ----- When sending can block -----

  function PendingOf(pool: Pool, cs: CallState, c: nat): int
    requires pool.Valid() && c < |pool.calls|
  {
    match cs
    case Sending(next) => next
    case Collecting(got) => |pool.ChunksOf(c)| - |got|
    case _ => 0
  }

  function Pending(pool: Pool, calls: seq<CallState>, n: nat): int
    requires pool.Valid() && n <= |calls| == |pool.calls|
  {
    if n == 0 then 0 else Pending(pool, calls, n - 1) + PendingOf(pool, calls[n - 1], n - 1)
  }

  function HandWeight(w: Worker): int { if HasJob(w) then 1 else 0 }

  function TotalChunks(pool: Pool, n: nat): nat
    requires pool.Valid() && n <= |pool.calls|
  {
    if n == 0 then 0 else TotalChunks(pool, n - 1) + |pool.ChunksOf(n - 1)|
  }

  /** The same conservation law as a count. */
  ghost predicate Counted(pool: Pool, s: State)
    requires pool.Valid() && |s.calls| == |pool.calls|
  {
    Pending(pool, s.calls, |s.calls|) == |s.queue| + Sum(HandWeight, s.workers) + |s.slots|
  }

  lemma {:induction false} PendingUpdate(pool: Pool, calls: seq<CallState>, n: nat, c: nat, x: CallState)
    requires pool.Valid() && n <= |calls| == |pool.calls| && c < |calls|
    ensures Pending(pool, calls[c := x], n) - Pending(pool, calls, n)
         == if c < n then PendingOf(pool, x, c) - PendingOf(pool, calls[c], c) else 0
  {
    if n == 0 {
    } else {
      PendingUpdate(pool, calls, n - 1, c, x);
    }
  }

  lemma {:induction false} PendingBound(pool: Pool, s: State, n: nat)
    requires Shape(pool, s) && n <= |s.calls|
    ensures Pending(pool, s.calls, n)
         <= TotalChunks(pool, n) - if s.gil.CallHolds? && s.gil.call < n then 1 else 0
  {
    if n == 0 {
    } else {
      PendingBound(pool, s, n - 1);
      assert CallOk(pool, s.calls[n - 1], n - 1);
    }
  }

  lemma {:induction false} NothingPending(pool: Pool, calls: seq<CallState>, n: nat)
    requires pool.Valid() && n <= |calls| == |pool.calls|
    requires forall c :: 0 <= c < |calls| ==> calls[c] == Waiting
    ensures Pending(pool, calls, n) == 0
  {
    if n == 0 {
    } else {
      NothingPending(pool, calls, n - 1);
    }
  }

  lemma StepCounted(pool: Pool, s: State, step: Step, t: State)
    requires Inv(pool, s) && Counted(pool, s) && NextStep(pool, s, step, t)
    ensures |t.calls| == |pool.calls| && Counted(pool, t)
  {
    if OfWorker(step) {
      WorkerStepCounted(pool, s, step, t);
    } else if step.Receive? {
      ReceiveCounted(pool, s, step.c, t);
    } else if !step.Shutdown? {
      CallStepCounted(pool, s, step, t);
    }
  }

  lemma WorkerStepCounted(pool: Pool, s: State, step: Step, t: State)
    requires Inv(pool, s) && Counted(pool, s) && NextStep(pool, s, step, t) && OfWorker(step)
    ensures |t.calls| == |pool.calls| && Counted(pool, t)
  {
    assert t.calls == s.calls;
    SumUpdate(HandWeight, s.workers, step.w, t.workers[step.w]);
    if step.Finish? {
      FinishAddsReply(pool, s, step.w, t);
    }
  }

  lemma ReceiveCounted(pool: Pool, s: State, c: nat, t: State)
    requires pool.Valid() && |s.calls| == |pool.calls| && Counted(pool, s) && NextStep(pool, s, Receive(c), t)
    ensures Counted(pool, t)
  {
    PendingUpdate(pool, s.calls, |s.calls|, c, t.calls[c]);
    assert t.calls == s.calls[c := t.calls[c]];
    ReceiveTakesReply(pool, s, c, t);
  }

  lemma CallStepCounted(pool: Pool, s: State, step: Step, t: State)
    requires pool.Valid() && |s.calls| == |pool.calls| && Counted(pool, s) && NextStep(pool, s, step, t)
    requires step.Enter? || step.Begin? || step.Send? || step.Return?
    ensures Counted(pool, t)
  {
    PendingUpdate(pool, s.calls, |s.calls|, step.c, t.calls[step.c]);
    assert t.calls == s.calls[step.c := t.calls[step.c]];
    assert t.slots == s.slots && t.workers == s.workers;
  }

  /** What every reachable state satisfies. */
  ghost predicate CountedInv(pool: Pool, s: State) { Inv(pool, s) && Counted(pool, s) }

  lemma ReachCounted(pool: Pool, s: State)
    requires pool.Valid() && Reachable(pool, s)
    ensures CountedInv(pool, s)
  {
    var init: State :| Init(pool, init) && Leads(pool, init, s);
    InitInv(pool, init);
    NothingPending(pool, init.calls, |init.calls|);
    SumUniform(HandWeight, init.workers, 0);
    var P := u => CountedInv(pool, u);
    forall u: State, step: Step, v: State | P(u) && NextStep(pool, u, step, v)
      ensures P(v)
    {
      StepInv(pool, u, step, v);
      StepCounted(pool, u, step, v);
    }
    LeadsKeeps(pool, P, init, s);
  }

  /** Sending never blocks when the queue has room for every chunk. */
  lemma EnoughRoomNeverBlocks(pool: Pool, s: State)
    requires pool.Valid() && Reachable(pool, s)
    requires pool.capacity == 0 || TotalChunks(pool, |pool.calls|) <= pool.capacity
    ensures !SendBlocked(pool, s)
  {
    ReachCounted(pool, s);
    PendingBound(pool, s, |s.calls|);
    SumNonNegative(HandWeight, s.workers);
  }

  /** Before any call: the first `woken` workers have timed out, the others have not yet polled. */
  ghost function TimedOut(pool: Pool, woken: nat): State {
    State(true, seq(|pool.calls|, i => Waiting), [], seq(pool.threads, w => if w < woken then Woken else Ready),
        map[], Free)
  }

  lemma StartReachable(pool: Pool)
    requires pool.Valid()
    ensures Reachable(pool, TimedOut(pool, 0))
  {
    var s := TimedOut(pool, 0);
    assert s.workers == seq(pool.threads, i => Ready);
    assert Init(pool, s);
    LeadsNowhere(pool, s);
  }

  lemma {:induction false} ReachTimedOut(pool: Pool, woken: nat)
    requires pool.Valid() && woken <= pool.threads
    ensures Reachable(pool, TimedOut(pool, woken))
  {
    if woken == 0 {
      StartReachable(pool);
    } else {
      var w := woken - 1;
      ReachTimedOut(pool, w);
      OneMoreTimeout(pool, w);
    }
  }

  lemma OneMoreTimeout(pool: Pool, w: nat)
    requires pool.Valid() && w < pool.threads && Reachable(pool, TimedOut(pool, w))
    ensures Reachable(pool, TimedOut(pool, w + 1))
  {
    var r, t := TimedOut(pool, w), TimedOut(pool, w + 1);
    var polling := r.(workers := r.workers[w := Polling]);
    ReachStep(pool, r, Poll(w), polling);
    assert t.workers == polling.workers[w := Woken];
    ReachStep(pool, polling, Timeout(w), t);
  }

  /** Every worker waits for the lock, `queued` chunks are queued, and the calls from `k` on have not begun. */
  ghost predicate Asleep(pool: Pool, s: State, k: nat, queued: nat) {
    && s.running && |s.calls| == |pool.calls| && |s.queue| == queued
    && (forall w :: 0 <= w < |s.workers| ==> s.workers[w] == Woken)
    && (forall j :: k <= j < |s.calls| ==> s.calls[j] == Waiting)
  }

  ghost predicate Filled(pool: Pool, k: nat)
    requires pool.Valid() && k <= |pool.calls|
  {
    exists s :: Reachable(pool, s) && Asleep(pool, s, k, TotalChunks(pool, k)) && s.gil == Free
  }

  ghost predicate PartlyFilled(pool: Pool, k: nat, i: nat)
    requires pool.Valid() && k < |pool.calls|
  {
    exists s :: Reachable(pool, s) && Asleep(pool, s, k + 1, TotalChunks(pool, k) + i) && s.gil == CallHolds(k) &&
        s.calls[k] == Sending(i)
  }

  lemma FillBegin(pool: Pool, k: nat)
    requires pool.Valid() && k < |pool.calls| && Filled(pool, k) && pool.ChunksOf(k) != []
    ensures PartlyFilled(pool, k, 0)
  {
    var s :| Reachable(pool, s) && Asleep(pool, s, k, TotalChunks(pool, k)) && s.gil == Free;
    var admitted := s.(calls := s.calls[k := Admitted]);
    ReachStep(pool, s, Enter(k), admitted);
    var t := s.(calls := s.calls[k := Sending(0)], gil := CallHolds(k));
    assert admitted.calls[k := Sending(0)] == t.calls;
    ReachStep(pool, admitted, Begin(k), t);
    assert Asleep(pool, t, k + 1, TotalChunks(pool, k) + 0);
  }

  lemma FillOne(pool: Pool, k: nat, i: nat)
    requires pool.Valid() && k < |pool.calls| && PartlyFilled(pool, k, i)
    requires i + 1 < |pool.ChunksOf(k)| && TotalChunks(pool, k) + i < pool.capacity
    ensures PartlyFilled(pool, k, i + 1)
  {
    var s :| Reachable(pool, s) && Asleep(pool, s, k + 1, TotalChunks(pool, k) + i) && s.gil == CallHolds(k) &&
        s.calls[k] == Sending(i);
    var t := SendInSleep(pool, s, k, i, TotalChunks(pool, k) + i);
    ReachStep(pool, s, Send(k), t);
  }

  lemma SendInSleep(pool: Pool, s: State, k: nat, i: nat, queued: nat) returns (t: State)
    requires pool.Valid() && k < |pool.calls| && i + 1 < |pool.ChunksOf(k)| && queued < pool.capacity
    requires Asleep(pool, s, k + 1, queued) && s.gil == CallHolds(k) && s.calls[k] == Sending(i)
    ensures NextStep(pool, s, Send(k), t)
    ensures Asleep(pool, t, k + 1, queued + 1) && t.gil == CallHolds(k) && t.calls[k] == Sending(i + 1)
  {
    t := s.(queue := s.queue + [(k, i)], calls := s.calls[k := Sending(i + 1)]);
  }

  lemma {:induction false} FillPartly(pool: Pool, k: nat, i: nat)
    requires pool.Valid() && k < |pool.calls| && Filled(pool, k)
    requires i < |pool.ChunksOf(k)| && TotalChunks(pool, k) + i <= pool.capacity
    ensures PartlyFilled(pool, k, i)
  {
    if i == 0 {
      FillBegin(pool, k);
    } else {
      FillPartly(pool, k, i - 1);
      FillOne(pool, k, i - 1);
    }
  }

  lemma FillCall(pool: Pool, k: nat)
    requires pool.Valid() && k < |pool.calls| && Filled(pool, k) && TotalChunks(pool, k + 1) <= pool.capacity
    ensures Filled(pool, k + 1)
  {
    var n := |pool.ChunksOf(k)|;
    if n == 0 {
      var s :| Reachable(pool, s) && Asleep(pool, s, k, TotalChunks(pool, k)) && s.gil == Free;
      var t := s.(calls := s.calls[k := Returned(Ok([]))]);
      ReachStep(pool, s, Enter(k), t);
      assert Asleep(pool, t, k + 1, TotalChunks(pool, k + 1));
    } else {
      FillPartly(pool, k, n - 1);
      var s :| Reachable(pool, s) && Asleep(pool, s, k + 1, TotalChunks(pool, k) + (n - 1)) &&
          s.gil == CallHolds(k) && s.calls[k] == Sending(n - 1);
      var t := s.(queue := s.queue + [(k, n - 1)], calls := s.calls[k := Collecting([])], gil := Free);
      ReachStep(pool, s, Send(k), t);
      assert Asleep(pool, t, k + 1, TotalChunks(pool, k + 1));
    }
  }

  lemma {:induction false} FillCalls(pool: Pool, k: nat)
    requires pool.Valid() && k <= |pool.calls| && TotalChunks(pool, k) <= pool.capacity
    ensures Filled(pool, k)
  {
    if k == 0 {
      ReachTimedOut(pool, pool.threads);
      assert Asleep(pool, TimedOut(pool, pool.threads), 0, 0);
    } else {
      FillCalls(pool, k - 1);
      FillCall(pool, k - 1);
    }
  }

  /** The call whose chunks overflow the queue. */
  lemma {:induction false} OverflowingCall(pool: Pool, n: nat) returns (k: nat)
    requires pool.Valid() && n <= |pool.calls| && pool.capacity < TotalChunks(pool, n)
    ensures k < n && TotalChunks(pool, k) <= pool.capacity < TotalChunks(pool, k + 1)
  {
    if TotalChunks(pool, n - 1) <= pool.capacity {
      k := n - 1;
    } else {
      k := OverflowingCall(pool, n - 1);
    }
  }

  /** Sending can block for ever exactly when the queue is bounded and holds fewer chunks than the calls
      make together: the workers may all be waiting for the lock that the sending call keeps. */
  lemma BlocksIff(pool: Pool)
    requires pool.Valid()
    ensures (exists s :: Reachable(pool, s) && SendBlocked(pool, s)) <==>
        0 < pool.capacity < TotalChunks(pool, |pool.calls|)
    ensures (exists s :: Reachable(pool, s) && SendBlocked(pool, s)) ==>
              exists s :: Reachable(pool, s) && SendBlocked(pool, s) && s.running
  {
    if 0 < pool.capacity < TotalChunks(pool, |pool.calls|) {
      var k := OverflowingCall(pool, |pool.calls|);
      var i := pool.capacity - TotalChunks(pool, k);
      FillCalls(pool, k);
      FillPartly(pool, k, i);
      var s :| Reachable(pool, s) && Asleep(pool, s, k + 1, TotalChunks(pool, k) + i) && s.gil == CallHolds(k) &&
          s.calls[k] == Sending(i);
      assert SendBlocked(pool, s) && s.running;
    } else {
      forall s | Reachable(pool, s)
        ensures !SendBlocked(pool, s)
      {
        EnoughRoomNeverBlocks(pool, s);
      }
    }
  }

  // ----- When every call can be finished -----

  ghost predicate CanFinish(pool: Pool, s: State) {
    exists t :: Leads(pool, s, t) && AllDone(t)
  }

  lemma {:induction false} FinishesFrom(pool: Pool, s: State)
    requires pool.Valid() && Reachable(pool, s) && s.running && |s.calls| == |pool.calls|
    requires pool.capacity == 0 || TotalChunks(pool, |pool.calls|) <= pool.capacity
    ensures CanFinish(pool, s)
    decreases Work(pool, s)
  {
    ReachInv(pool, s);
    if AllDone(s) {
      LeadsNowhere(pool, s);
    } else {
      EnoughRoomNeverBlocks(pool, s);
      Progress(pool, s);
      var t :| Advances(pool, s, t);
      WorkNonNegative(pool, t);
      ReachOn(pool, s, t);
      FinishesFrom(pool, t);
      var u :| Leads(pool, t, u) && AllDone(u);
      LeadsOn(pool, s, t, u);
    }
  }

  lemma BlockedNeverFinishes(pool: Pool, s: State)
    requires Inv(pool, s) && SendBlocked(pool, s)
    ensures !CanFinish(pool, s)
  {
    var P := u => Inv(pool, u) && SendBlocked(pool, u);
    forall u: State, step: Step, v: State | P(u) && NextStep(pool, u, step, v)
      ensures P(v)
    {
      StepInv(pool, u, step, v);
      BlockedForever(pool, u, step, v);
    }
    forall t | Leads(pool, s, t)
      ensures !AllDone(t)
    {
      LeadsKeeps(pool, P, s, t);
      assert t.calls[t.gil.call].Sending?;
    }
  }

  /** From every running state all calls can still be finished exactly when the queue is unbounded or has room
      for all their chunks. */
  lemma AlwaysFinishesIff(pool: Pool)
    requires pool.Valid()
    ensures (forall s :: Reachable(pool, s) && s.running ==> CanFinish(pool, s))
       <==> pool.capacity == 0 || TotalChunks(pool, |pool.calls|) <= pool.capacity
  {
    BlocksIff(pool);
    if pool.capacity == 0 || TotalChunks(pool, |pool.calls|) <= pool.capacity {
      forall s | Reachable(pool, s) && s.running
        ensures CanFinish(pool, s)
      {
        ReachInv(pool, s);
        FinishesFrom(pool, s);
      }
    } else {
      var s :| Reachable(pool, s) && SendBlocked(pool, s) && s.running;
      ReachInv(pool, s);
      BlockedNeverFinishes(pool, s);
    }
  }
}
