/** `BlockingExecutor` as a step system: any number of concurrent `map` calls share one
    work queue and a pool of worker threads, under every interleaving of their steps.
    The interpreter lock is a component of the state, because a submitting call keeps it
    until its last chunk is queued while a worker needs it to run a chunk. */
module MapExecutor {
  import opened Chunking
  import opened Counting

  datatype Call = Call(fn: Callable, items: seq<Item>, requested: nat)

  /** The pool: `capacity` 0 means an unbounded queue. */
  datatype Pool = Pool(calls: seq<Call>, capacity: nat, threads: nat) {
    predicate Valid() { threads > 0 }

    function ChunksOf(c: nat): seq<seq<Item>>
      requires Valid() && c < |calls|
    {
      Chunks(calls[c].items, ChunkSize(|calls[c].items|, calls[c].requested, threads))
    }

    function Reply(c: nat, i: nat): Outcome<seq<Value>>
      requires Valid() && c < |calls| && i < |ChunksOf(c)|
    {
      SequentialMap(calls[c].fn, ChunksOf(c)[i])
    }
  }

  /** A queued chunk: its call and its index within the call. */
  type Job = (nat, nat)

  datatype CallState =
    | Waiting
    | Rejected
    | Admitted   // saw `running`; building its wrapper runs Python code, so the lock may pass to others
    | Sending(next: nat)
    | Collecting(got: seq<Outcome<seq<Value>>>)
    | Returned(result: Outcome<seq<Value>>)

  /** Where a worker is in its loop. */
  datatype Worker =
    | Ready            // without the lock, about to look at `running`
    | Polling          // saw `running`, waits on the queue
    | Woken            // received nothing, waits for the lock to go round again
    | Taken(job: Job)  // received a chunk, waits for the lock
    | Busy(job: Job)   // runs the chunk, with the lock
    | Paused(job: Job) // in the middle of the chunk, has given up the lock
    | Stopped

  predicate HasJob(w: Worker) { w.Taken? || w.Busy? || w.Paused? }

  datatype Holder = CallHolds(call: nat) | WorkerHolds(worker: nat) | Free

  datatype State = State(
    running: bool,
    calls: seq<CallState>,
    queue: seq<Job>,
    workers: seq<Worker>,
    slots: map<Job, Outcome<seq<Value>>>,  // one-place reply channels that hold a value
    gil: Holder)

  datatype Step =
    | Enter(c: nat)      // check `running`, handle the empty list
    | Begin(c: nat)      // with the lock again, start sending
    | Send(c: nat)       // put the next chunk on the queue
    | Poll(w: nat)       // a worker looks at `running`, and waits on the queue or gives up
    | Timeout(w: nat)    // nothing came
    | Wake(w: nat)       // it gets the lock, and stops or goes round again
    | Take(w: nat)       // a worker receives the head of the queue
    | Acquire(w: nat)    // it gets the interpreter lock
    | Release(w: nat)    // its callable blocks, or the interpreter switches threads
    | Resume(w: nat)     // it gets the lock back
    | Finish(w: nat)     // it has run the chunk and replies
    | Receive(c: nat)    // the call receives its next reply, in chunk order
    | Return(c: nat)     // the call merges the replies
    | Shutdown

  ghost predicate Init(pool: Pool, s: State) {
    && s.running
    && s.calls == seq(|pool.calls|, i => Waiting)
    && s.queue == [] && s.slots == map[] && s.gil == Free
    && s.workers == seq(pool.threads, i => Ready)
  }

  ghost predicate NextStep(pool: Pool, s: State, step: Step, t: State)
    requires pool.Valid()
  {
    match step
    case Enter(c) =>
      && c < |pool.calls| == |s.calls| && s.calls[c] == Waiting && s.gil == Free
      && t == if !s.running then s.(calls := s.calls[c := Rejected])
              else if pool.calls[c].items == [] then s.(calls := s.calls[c := Returned(Ok([]))])
              else s.(calls := s.calls[c := Admitted])
    case Begin(c) =>
      && c < |s.calls| && s.calls[c] == Admitted && s.gil == Free
      && t == s.(calls := s.calls[c := Sending(0)], gil := CallHolds(c))
    case Send(c) =>
      && c < |pool.calls| == |s.calls| && s.calls[c].Sending? && s.calls[c].next < |pool.ChunksOf(c)|
      && HasRoom(pool, s)
      && var i := s.calls[c].next;
         var queue := s.queue + [(c, i)];
         t == if i + 1 == |pool.ChunksOf(c)|
              then s.(queue := queue, calls := s.calls[c := Collecting([])], gil := Free)
              else s.(queue := queue, calls := s.calls[c := Sending(i + 1)])
    case Poll(w) =>
      && w < |s.workers| && s.workers[w] == Ready
      && t == s.(workers := s.workers[w := if s.running then Polling else Woken])
    case Timeout(w) =>
      && w < |s.workers| && s.workers[w] == Polling && s.queue == []
      && t == s.(workers := s.workers[w := Woken])
    case Wake(w) =>
      && w < |s.workers| && s.workers[w] == Woken && s.gil == Free
      && t == s.(workers := s.workers[w := if !s.running && s.queue == [] then Stopped else Ready])
    case Take(w) =>
      && w < |s.workers| && s.workers[w] == Polling && s.queue != []
      && t == s.(queue := s.queue[1..], workers := s.workers[w := Taken(s.queue[0])])
    case Acquire(w) =>
      && w < |s.workers| && s.workers[w].Taken? && s.gil == Free
      && t == s.(workers := s.workers[w := Busy(s.workers[w].job)], gil := WorkerHolds(w))
    case Release(w) =>
      && w < |s.workers| && s.workers[w].Busy?
      && t == s.(workers := s.workers[w := Paused(s.workers[w].job)], gil := Free)
    case Resume(w) =>
      && w < |s.workers| && s.workers[w].Paused? && s.gil == Free
      && t == s.(workers := s.workers[w := Busy(s.workers[w].job)], gil := WorkerHolds(w))
    case Finish(w) =>
      && w < |s.workers| && s.workers[w].Busy?
      && var job := s.workers[w].job;
         && job.0 < |pool.calls| && job.1 < |pool.ChunksOf(job.0)|
         && t == s.(workers := s.workers[w := Ready], slots := s.slots[job := pool.Reply(job.0, job.1)], gil := Free)
    case Receive(c) =>
      && c < |s.calls| && s.calls[c].Collecting?
      && var job := (c, |s.calls[c].got|);
         && job in s.slots
         && t == s.(calls := s.calls[c := Collecting(s.calls[c].got + [s.slots[job]])], slots := s.slots - {job})
    case Return(c) =>
      && c < |pool.calls| == |s.calls| && s.calls[c].Collecting? && s.gil == Free
      && |s.calls[c].got| == |pool.ChunksOf(c)|
      && t == s.(calls := s.calls[c := Returned(Merge(s.calls[c].got))])
    case Shutdown =>
      s.running && s.gil == Free && t == s.(running := false)
  }

  /** A worker's steps that bring no chunk further. */
  predicate Idling(step: Step) { step.Poll? || step.Timeout? || step.Wake? || step.Release? || step.Resume? }

  predicate OfWorker(step: Step) { Idling(step) || step.Take? || step.Acquire? || step.Finish? }

  predicate HasRoom(pool: Pool, s: State) {
    pool.capacity == 0 || |s.queue| < pool.capacity
  }

  // ----- Invariant -----

  function Sent(pool: Pool, s: State, c: nat): nat
    requires pool.Valid() && c < |s.calls| == |pool.calls|
  {
    match s.calls[c]
    case Waiting => 0
    case Rejected => 0
    case Admitted => 0
    case Sending(next) => next
    case Collecting(_) => |pool.ChunksOf(c)|
    case Returned(_) => |pool.ChunksOf(c)|
  }

  function Received(pool: Pool, s: State, c: nat): nat
    requires pool.Valid() && c < |s.calls| == |pool.calls|
  {
    match s.calls[c]
    case Collecting(got) => |got|
    case Returned(_) => |pool.ChunksOf(c)|
    case _ => 0
  }

  /** The chunk was sent and its reply was not yet received. */
  predicate Outstanding(pool: Pool, s: State, job: Job)
    requires pool.Valid() && |s.calls| == |pool.calls|
  {
    job.0 < |s.calls| && Received(pool, s, job.0) <= job.1 < Sent(pool, s, job.0)
  }

  function Holds(job: Job): Worker -> int {
    (w: Worker) => if HasJob(w) && w.job == job then 1 else 0
  }

  /** In how many places a chunk is: the queue, the workers' hands, the reply channels. */
  function Places(s: State, job: Job): int {
    Count(s.queue, job) + Sum(Holds(job), s.workers) + if job in s.slots then 1 else 0
  }

  /** Every outstanding chunk is in exactly one place, and no other chunk is anywhere. */
  ghost predicate EachOnce(pool: Pool, s: State)
    requires pool.Valid() && |s.calls| == |pool.calls|
  {
    forall job: Job :: Places(s, job) == if Outstanding(pool, s, job) then 1 else 0
  }

  ghost predicate CallOk(pool: Pool, cs: CallState, c: nat)
    requires pool.Valid() && c < |pool.calls|
  {
    match cs
    case Waiting => true
    case Rejected => true
    case Admitted => pool.ChunksOf(c) != []
    case Sending(next) => next < |pool.ChunksOf(c)|
    case Collecting(got) =>
      |got| <= |pool.ChunksOf(c)| && forall i :: 0 <= i < |got| ==> got[i] == pool.Reply(c, i)
    case Returned(r) => r == SequentialMap(pool.calls[c].fn, pool.calls[c].items)
  }

  ghost predicate LockOk(s: State) {
    && (forall c :: 0 <= c < |s.calls| ==> (s.calls[c].Sending? <==> s.gil == CallHolds(c)))
    && (forall w :: 0 <= w < |s.workers| ==> (s.workers[w].Busy? <==> s.gil == WorkerHolds(w)))
    && (s.gil.CallHolds? ==> s.gil.call < |s.calls|)
    && (s.gil.WorkerHolds? ==> s.gil.worker < |s.workers|)
  }

  ghost predicate SlotsOk(pool: Pool, s: State)
    requires pool.Valid()
  {
    forall job :: job in s.slots ==>
      job.0 < |pool.calls| && job.1 < |pool.ChunksOf(job.0)| && s.slots[job] == pool.Reply(job.0, job.1)
  }

  ghost predicate Shape(pool: Pool, s: State) {
    && pool.Valid()
    && |s.calls| == |pool.calls| && |s.workers| == pool.threads
    && (forall c :: 0 <= c < |s.calls| ==> CallOk(pool, s.calls[c], c))
    && (s.running ==> forall c :: 0 <= c < |s.calls| ==> s.calls[c] != Rejected)
    && (s.running ==> forall w :: 0 <= w < |s.workers| ==> s.workers[w] != Stopped)
    && LockOk(s) && SlotsOk(pool, s)
  }

  ghost predicate Inv(pool: Pool, s: State) {
    Shape(pool, s) && EachOnce(pool, s)
  }

  lemma InitInv(pool: Pool, s: State)
    requires pool.Valid() && Init(pool, s)
    ensures Inv(pool, s)
  {
    forall job: Job
      ensures Places(s, job) == 0
    {
      SumUniform(Holds(job), s.workers, 0);
    }
  }

  lemma ReturnedResult(pool: Pool, s: State, c: nat)
    requires Shape(pool, s) && c < |s.calls| && s.calls[c].Collecting?
    requires |s.calls[c].got| == |pool.ChunksOf(c)|
    ensures Merge(s.calls[c].got) == SequentialMap(pool.calls[c].fn, pool.calls[c].items)
  {
    var call := pool.calls[c];
    assert s.calls[c].got == RunAll(call.fn, pool.ChunksOf(c));
    MergeOfChunks(call.fn, call.items, ChunkSize(|call.items|, call.requested, pool.threads));
  }

  lemma ReceiveShape(pool: Pool, s: State, c: nat, t: State)
    requires Shape(pool, s) && NextStep(pool, s, Receive(c), t)
    ensures Shape(pool, t)
  {
  }

  lemma CallStepShape(pool: Pool, s: State, step: Step, t: State)
    requires Shape(pool, s) && NextStep(pool, s, step, t)
    requires step.Enter? || step.Begin? || step.Send? || step.Return? || step.Shutdown?
    ensures Shape(pool, t)
  {
    if step.Return? {
      ReturnedResult(pool, s, step.c);
    }
  }

  lemma WorkerStepShape(pool: Pool, s: State, step: Step, t: State)
    requires Shape(pool, s) && NextStep(pool, s, step, t)
    requires OfWorker(step)
    ensures Shape(pool, t)
  {
  }

  // Each step moves chunks between the places without losing or copying one.

  lemma SendPlaces(pool: Pool, s: State, c: nat, t: State, job: Job)
    requires Inv(pool, s) && NextStep(pool, s, Send(c), t)
    ensures Places(t, job) == if Outstanding(pool, t, job) then 1 else 0
  {
    assert Places(s, job) == if Outstanding(pool, s, job) then 1 else 0;
    CountAppend(s.queue, (c, s.calls[c].next), job);
    assert t.queue == s.queue + [(c, s.calls[c].next)];
  }

  lemma ReceivePlaces(pool: Pool, s: State, c: nat, t: State, job: Job)
    requires Inv(pool, s) && NextStep(pool, s, Receive(c), t) && |t.calls| == |pool.calls|
    ensures Places(t, job) == if Outstanding(pool, t, job) then 1 else 0
  {
    assert Places(s, job) == if Outstanding(pool, s, job) then 1 else 0;
    assert job in t.slots <==> job in s.slots && job != (c, |s.calls[c].got|);
  }

  lemma CallStepPlaces(pool: Pool, s: State, step: Step, t: State, job: Job)
    requires Inv(pool, s) && NextStep(pool, s, step, t) && |t.calls| == |pool.calls|
    requires step.Enter? || step.Begin? || step.Return? || step.Shutdown?
    ensures Places(t, job) == if Outstanding(pool, t, job) then 1 else 0
  {
    assert Places(s, job) == if Outstanding(pool, s, job) then 1 else 0;
    assert Count(t.queue, job) == Count(s.queue, job) && Sum(Holds(job), t.workers) == Sum(Holds(job), s.workers);
  }

  lemma IdleStepPlaces(pool: Pool, s: State, step: Step, t: State, job: Job)
    requires Inv(pool, s) && NextStep(pool, s, step, t) && Idling(step)
    ensures |t.calls| == |pool.calls| && Places(t, job) == if Outstanding(pool, t, job) then 1 else 0
  {
    assert Places(s, job) == if Outstanding(pool, s, job) then 1 else 0;
    assert t == s.(workers := t.workers, gil := t.gil) && Outstanding(pool, t, job) == Outstanding(pool, s, job);
    SumUpdate(Holds(job), s.workers, step.w, t.workers[step.w]);
  }

  lemma WorkerStepPlaces(pool: Pool, s: State, step: Step, t: State, job: Job)
    requires Inv(pool, s) && NextStep(pool, s, step, t) && |t.calls| == |pool.calls|
    requires step.Take? || step.Acquire? || step.Finish?
    ensures Places(t, job) == if Outstanding(pool, t, job) then 1 else 0
  {
    assert Places(s, job) == if Outstanding(pool, s, job) then 1 else 0;
    assert Outstanding(pool, t, job) == Outstanding(pool, s, job);
    SumUpdate(Holds(job), s.workers, step.w, t.workers[step.w]);
    SumAtLeast(Holds(job), s.workers, step.w);
  }

  lemma StepInv(pool: Pool, s: State, step: Step, t: State)
    requires Inv(pool, s) && NextStep(pool, s, step, t)
    ensures Inv(pool, t)
  {
    if OfWorker(step) {
      WorkerStepShape(pool, s, step, t);
    } else if step.Receive? {
      ReceiveShape(pool, s, step.c, t);
    } else {
      CallStepShape(pool, s, step, t);
    }
    forall job: Job
      ensures Places(t, job) == if Outstanding(pool, t, job) then 1 else 0
    {
      if Idling(step) {
        IdleStepPlaces(pool, s, step, t, job);
      } else if OfWorker(step) {
        WorkerStepPlaces(pool, s, step, t, job);
      } else if step.Send? {
        SendPlaces(pool, s, step.c, t, job);
      } else if step.Receive? {
        ReceivePlaces(pool, s, step.c, t, job);
      } else {
        CallStepPlaces(pool, s, step, t, job);
      }
    }
  }

  // ----- Runs -----

  ghost predicate Next(pool: Pool, s: State, t: State)
    requires pool.Valid()
  {
    exists step :: NextStep(pool, s, step, t)
  }

  ghost predicate IsPath(pool: Pool, path: seq<State>) {
    pool.Valid() && path != [] && forall i :: 0 <= i < |path| - 1 ==> Next(pool, path[i], path[i + 1])
  }

  /** Some interleaving of steps goes from `s` to `t`. */
  ghost predicate Leads(pool: Pool, s: State, t: State) {
    exists path: seq<State> :: IsPath(pool, path) && path[0] == s && path[|path| - 1] == t
  }

  ghost predicate Reachable(pool: Pool, s: State) {
    exists init: State :: Init(pool, init) && Leads(pool, init, s)
  }

  lemma LeadsNowhere(pool: Pool, s: State)
    requires pool.Valid()
    ensures Leads(pool, s, s)
  {
    assert IsPath(pool, [s]) && [s][0] == s;
  }

  lemma LeadsStep(pool: Pool, s: State, m: State, step: Step, t: State)
    requires pool.Valid() && Leads(pool, s, m) && NextStep(pool, m, step, t)
    ensures Leads(pool, s, t)
  {
    var path: seq<State> :| IsPath(pool, path) && path[0] == s && path[|path| - 1] == m;
    var longer := path + [t];
    forall i | 0 <= i < |longer| - 1
      ensures Next(pool, longer[i], longer[i + 1])
    {
      if i < |path| - 1 {
        assert Next(pool, path[i], path[i + 1]);
      }
    }
    assert IsPath(pool, longer) && longer[0] == s && longer[|longer| - 1] == t;
  }

  /** What every step keeps, every path keeps. */
  lemma LeadsKeeps(pool: Pool, P: State -> bool, s: State, t: State)
    requires pool.Valid() && Leads(pool, s, t) && P(s)
    requires forall u: State, step: Step, v: State :: P(u) && NextStep(pool, u, step, v) ==> P(v)
    ensures P(t)
  {
    var path: seq<State> :| IsPath(pool, path) && path[0] == s && path[|path| - 1] == t;
    PathKeeps(pool, P, path, |path| - 1);
  }

  lemma {:induction false} PathKeeps(pool: Pool, P: State -> bool, path: seq<State>, i: nat)
    requires IsPath(pool, path) && i < |path| && P(path[0])
    requires forall u: State, step: Step, v: State :: P(u) && NextStep(pool, u, step, v) ==> P(v)
    ensures P(path[i])
  {
    if i == 0 {
    } else {
      PathKeeps(pool, P, path, i - 1);
      assert Next(pool, path[i - 1], path[i - 1 + 1]);
    }
  }

  lemma LeadsOn(pool: Pool, s: State, m: State, t: State)
    requires pool.Valid() && Leads(pool, s, m) && Leads(pool, m, t)
    ensures Leads(pool, s, t)
  {
    var P := u => Leads(pool, s, u);
    forall u: State, step: Step, v: State | P(u) && NextStep(pool, u, step, v)
      ensures P(v)
    {
      LeadsStep(pool, s, u, step, v);
    }
    LeadsKeeps(pool, P, m, t);
  }

  lemma LeadsInv(pool: Pool, s: State, t: State)
    requires Inv(pool, s) && Leads(pool, s, t)
    ensures Inv(pool, t)
  {
    var P := u => Inv(pool, u);
    forall u: State, step: Step, v: State | P(u) && NextStep(pool, u, step, v)
      ensures P(v)
    {
      StepInv(pool, u, step, v);
    }
    LeadsKeeps(pool, P, s, t);
  }

  lemma ReachStep(pool: Pool, s: State, step: Step, t: State)
    requires pool.Valid() && Reachable(pool, s) && NextStep(pool, s, step, t)
    ensures Reachable(pool, t)
  {
    var init: State :| Init(pool, init) && Leads(pool, init, s);
    LeadsStep(pool, init, s, step, t);
  }

  lemma ReachOn(pool: Pool, s: State, t: State)
    requires pool.Valid() && Reachable(pool, s) && Leads(pool, s, t)
    ensures Reachable(pool, t)
  {
    var init: State :| Init(pool, init) && Leads(pool, init, s);
    LeadsOn(pool, init, s, t);
  }

  lemma ReachInv(pool: Pool, s: State)
    requires pool.Valid() && Reachable(pool, s)
    ensures Inv(pool, s)
  {
    var init: State :| Init(pool, init) && Leads(pool, init, s);
    InitInv(pool, init);
    LeadsInv(pool, init, s);
  }

  /** In every interleaving, a `map` that returns gives the value of every item in its place, or the exception
      of the first item that raises. Only shutdown makes it be refused. */
  lemma MapIsSequential(pool: Pool, s: State, c: nat)
    requires pool.Valid() && Reachable(pool, s) && c < |pool.calls|
    ensures |s.calls| == |pool.calls|
    ensures s.calls[c].Returned? ==> IsMapOf(pool.calls[c].fn, pool.calls[c].items, s.calls[c].result)
    ensures s.calls[c].Rejected? ==> !s.running
  {
    ReachInv(pool, s);
    assert CallOk(pool, s.calls[c], c);
    SequentialMapIs(pool.calls[c].fn, pool.calls[c].items);
  }
}
