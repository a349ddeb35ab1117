/** Which `map` calls can return at all. A worker that takes a chunk cannot run it without the lock that the
    sending call keeps, so a call gets all its chunks out only if the queue and the workers' hands hold them. */
module MapCalls {
  import opened Chunking
  import opened Counting
  import opened MapExecutor
  import opened MapProgress

  /** The chunks of call `c` fit into the queue and the workers' hands together. */
  predicate Fits(pool: Pool, c: nat)
    requires pool.Valid() && c < |pool.calls|
  {
    pool.capacity == 0 || |pool.ChunksOf(c)| <= pool.capacity + pool.threads
  }

  // ----- A call that does not fit hangs in every run -----

  function InQueue(c: nat): Job -> int { (job: Job) => if job.0 == c then 1 else 0 }

  function InHand(c: nat): Worker -> int { (w: Worker) => if HasJob(w) && w.job.0 == c then 1 else 0 }

  /** How many chunks a call has sent that cannot have been run yet. */
  function SentSoFar(cs: CallState): nat { if cs.Sending? then cs.next else 0 }

  /** The call has not got its last chunk out, so none of them has been run. */
  ghost predicate Unsent(pool: Pool, s: State, c: nat) {
    && Inv(pool, s) && c < |s.calls| && |s.queue| <= pool.capacity
    && (s.calls[c].Waiting? || s.calls[c].Admitted? || s.calls[c].Sending? ==>
          Sum(InQueue(c), s.queue) + Sum(InHand(c), s.workers) == SentSoFar(s.calls[c]))
    && (forall w :: 0 <= w < |s.workers| && (s.workers[w].Busy? || s.workers[w].Paused?) ==> s.workers[w].job.0 != c)
    && !s.calls[c].Collecting? && !s.calls[c].Returned?
  }

  lemma UnsentInit(pool: Pool, s: State, c: nat)
    requires pool.Valid() && Init(pool, s) && c < |pool.calls|
    ensures Unsent(pool, s, c)
  {
    InitInv(pool, s);
    SumUniform(InHand(c), s.workers, 0);
  }

  lemma UnsentIdle(pool: Pool, s: State, step: Step, t: State, c: nat)
    requires Unsent(pool, s, c) && NextStep(pool, s, step, t) && Idling(step) && Inv(pool, t)
    ensures Unsent(pool, t, c)
  {
    assert t == s.(workers := t.workers, gil := t.gil);
    SumUpdate(InHand(c), s.workers, step.w, t.workers[step.w]);
  }

  lemma UnsentTake(pool: Pool, s: State, w: nat, t: State, c: nat)
    requires Unsent(pool, s, c) && NextStep(pool, s, Take(w), t) && Inv(pool, t)
    ensures Unsent(pool, t, c)
  {
    SumUpdate(InHand(c), s.workers, w, t.workers[w]);
  }

  /** Nobody runs a chunk of a call that is waiting, sending or refused. */
  lemma UnsentRun(pool: Pool, s: State, step: Step, t: State, c: nat)
    requires Unsent(pool, s, c) && NextStep(pool, s, step, t) && (step.Acquire? || step.Finish?) && Inv(pool, t)
    ensures Unsent(pool, t, c)
  {
    SumUpdate(InHand(c), s.workers, step.w, t.workers[step.w]);
    HolderHasSent(pool, s, step.w);
  }

  /** Only a call that has begun to send has a chunk in a worker's hands. */
  lemma HolderHasSent(pool: Pool, s: State, w: nat)
    requires Inv(pool, s) && w < |s.workers| && HasJob(s.workers[w])
    ensures var c := s.workers[w].job.0;
            c < |s.calls| && !s.calls[c].Rejected? && !s.calls[c].Waiting? && !s.calls[c].Admitted?
  {
    var job := s.workers[w].job;
    SumAtLeast(Holds(job), s.workers, w);
    assert Places(s, job) >= 1;
    assert Outstanding(pool, s, job);
  }

  lemma UnsentCall(pool: Pool, s: State, step: Step, t: State, c: nat)
    requires Unsent(pool, s, c) && NextStep(pool, s, step, t) && !OfWorker(step) && Inv(pool, t)
    requires 0 < pool.capacity && !Fits(pool, c)
    ensures Unsent(pool, t, c)
  {
    if step.Send? {
      SumAppend(InQueue(c), s.queue, (step.c, s.calls[step.c].next));
      assert t.queue == s.queue + [(step.c, s.calls[step.c].next)];
      SumBound(InQueue(c), t.queue);
      SumBound(InHand(c), t.workers);
    }
  }

  /** A call whose chunks do not fit never gets its last chunk out, in any run. */
  lemma TooLargeNeverReturns(pool: Pool, s: State, c: nat)
    requires pool.Valid() && Reachable(pool, s) && c < |pool.calls| && !Fits(pool, c)
    ensures c < |s.calls| && !s.calls[c].Collecting? && !s.calls[c].Returned?
  {
    var init: State :| Init(pool, init) && Leads(pool, init, s);
    UnsentInit(pool, init, c);
    var P := u => Unsent(pool, u, c);
    forall u: State, step: Step, v: State | P(u) && NextStep(pool, u, step, v)
      ensures P(v)
    {
      StepInv(pool, u, step, v);
      if Idling(step) {
        UnsentIdle(pool, u, step, v, c);
      } else if step.Take? {
        UnsentTake(pool, u, step.w, v, c);
      } else if OfWorker(step) {
        UnsentRun(pool, u, step, v, c);
      } else {
        UnsentCall(pool, u, step, v, c);
      }
    }
    LeadsKeeps(pool, P, init, s);
  }

  // ----- A call that fits can return -----

  /** Call `c` has sent `i` chunks, of which the first `k` workers hold one each; the others have not polled. */
  ghost predicate Loading(pool: Pool, s: State, c: nat, i: nat, k: nat) {
    && c < |s.calls| == |pool.calls| && |s.workers| == pool.threads
    && s.running && s.gil == CallHolds(c) && s.calls[c] == Sending(i)
    && k <= i && |s.queue| == i - k && (0 < pool.capacity ==> |s.queue| <= pool.capacity)
    && (forall w :: 0 <= w < |s.workers| ==> if w < k then s.workers[w].Taken? else s.workers[w].Ready?)
  }

  ghost predicate Loaded(pool: Pool, c: nat, i: nat) {
    exists s, k :: Reachable(pool, s) && Loading(pool, s, c, i, k)
  }

  lemma LoadBegin(pool: Pool, c: nat)
    requires pool.Valid() && c < |pool.calls| && pool.ChunksOf(c) != []
    ensures Loaded(pool, c, 0)
  {
    StartReachable(pool);
    var s := TimedOut(pool, 0);
    var admitted := s.(calls := s.calls[c := Admitted]);
    ReachStep(pool, s, Enter(c), admitted);
    var t := s.(calls := s.calls[c := Sending(0)], gil := CallHolds(c));
    assert admitted.calls[c := Sending(0)] == t.calls;
    ReachStep(pool, admitted, Begin(c), t);
    assert Loading(pool, t, c, 0, 0);
  }

  /** One more worker takes a chunk. */
  lemma TakeOne(pool: Pool, s: State, c: nat, i: nat, k: nat) returns (polling: State, t: State)
    requires pool.Valid() && Loading(pool, s, c, i, k) && k < pool.threads && s.queue != []
    ensures NextStep(pool, s, Poll(k), polling) && NextStep(pool, polling, Take(k), t)
    ensures Loading(pool, t, c, i, k + 1) && |t.queue| == |s.queue| - 1
  {
    polling := s.(workers := s.workers[k := Polling]);
    t := polling.(queue := s.queue[1..], workers := polling.workers[k := Taken(s.queue[0])]);
  }

  lemma MakeRoom(pool: Pool, s: State, c: nat, i: nat, k: nat) returns (t: State, l: nat)
    requires pool.Valid() && c < |pool.calls| && i < |pool.ChunksOf(c)| && Fits(pool, c)
    requires Reachable(pool, s) && Loading(pool, s, c, i, k)
    ensures Reachable(pool, t) && Loading(pool, t, c, i, l) && HasRoom(pool, t)
  {
    if HasRoom(pool, s) {
      return s, k;
    }
    assert k < pool.threads;
    var polling;
    polling, t := TakeOne(pool, s, c, i, k);
    ReachStep(pool, s, Poll(k), polling);
    ReachStep(pool, polling, Take(k), t);
    l := k + 1;
  }

  lemma LoadOne(pool: Pool, c: nat, i: nat)
    requires pool.Valid() && c < |pool.calls| && Loaded(pool, c, i) && i + 1 < |pool.ChunksOf(c)| && Fits(pool, c)
    ensures Loaded(pool, c, i + 1)
  {
    var r, k :| Reachable(pool, r) && Loading(pool, r, c, i, k);
    var s, l := MakeRoom(pool, r, c, i, k);
    var t := s.(queue := s.queue + [(c, i)], calls := s.calls[c := Sending(i + 1)]);
    ReachStep(pool, s, Send(c), t);
    assert Loading(pool, t, c, i + 1, l);
  }

  lemma {:induction false} Load(pool: Pool, c: nat, i: nat)
    requires pool.Valid() && c < |pool.calls| && i < |pool.ChunksOf(c)| && Fits(pool, c)
    ensures Loaded(pool, c, i)
  {
    if i == 0 {
      LoadBegin(pool, c);
    } else {
      Load(pool, c, i - 1);
      LoadOne(pool, c, i - 1);
    }
  }

  /** All chunks are out, at least one is still queued, and no worker waits on the queue. */
  lemma LoadAll(pool: Pool, c: nat) returns (t: State)
    requires pool.Valid() && c < |pool.calls| && pool.ChunksOf(c) != [] && Fits(pool, c)
    ensures Reachable(pool, t) && t.running && t.gil == Free && c < |t.calls| && t.calls[c].Collecting? && t.queue != []
    ensures forall w :: 0 <= w < |t.workers| ==> t.workers[w] != Polling
  {
    var i := |pool.ChunksOf(c)| - 1;
    Load(pool, c, i);
    var r, k :| Reachable(pool, r) && Loading(pool, r, c, i, k);
    var s, l := MakeRoom(pool, r, c, i, k);
    t := s.(queue := s.queue + [(c, i)], calls := s.calls[c := Collecting([])], gil := Free);
    ReachStep(pool, s, Send(c), t);
  }

  lemma {:induction false} ServedToTheEnd(pool: Pool, s: State, c: nat)
    requires Inv(pool, s) && s.running && Serves(s, c)
    ensures exists t :: Leads(pool, s, t) && c < |t.calls| && t.calls[c].Returned?
    decreases Work(pool, s)
  {
    if s.calls[c].Returned? {
      LeadsNowhere(pool, s);
    } else {
      ProgressOf(pool, s, c);
      var t :| Advances(pool, s, t) && Serves(t, c);
      WorkNonNegative(pool, t);
      ServedToTheEnd(pool, t, c);
      var u :| Leads(pool, t, u) && c < |u.calls| && u.calls[c].Returned?;
      LeadsOn(pool, s, t, u);
    }
  }

  ghost predicate CanReturn(pool: Pool, c: nat) {
    exists s :: Reachable(pool, s) && c < |s.calls| && s.calls[c].Returned?
  }

  /** Among any number of concurrent calls, a call returns in some run exactly if the queue is unbounded or its
      chunks fit into the queue and the workers' hands together; otherwise it hangs in every run it enters. */
  lemma ReturnsIff(pool: Pool, c: nat)
    requires pool.Valid() && c < |pool.calls|
    ensures CanReturn(pool, c) <==> pool.capacity == 0 || |pool.ChunksOf(c)| <= pool.capacity + pool.threads
  {
    if !Fits(pool, c) {
      forall s | Reachable(pool, s)
        ensures c < |s.calls| && !s.calls[c].Returned?
      {
        TooLargeNeverReturns(pool, s, c);
      }
    } else if pool.ChunksOf(c) == [] {
      StartReachable(pool);
      var s := TimedOut(pool, 0);
      var t := s.(calls := s.calls[c := Returned(Ok([]))]);
      ReachStep(pool, s, Enter(c), t);
      assert t.calls[c].Returned?;
    } else {
      var s := LoadAll(pool, c);
      ReachInv(pool, s);
      ServedToTheEnd(pool, s, c);
      var t :| Leads(pool, s, t) && c < |t.calls| && t.calls[c].Returned?;
      ReachOn(pool, s, t);
    }
  }
}
