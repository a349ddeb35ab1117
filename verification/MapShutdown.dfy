/** What shutdown leaves behind: after it, a worker already waiting on the queue receives at most once more,
    and no other worker receives again, while calls that had seen `running` may still send. */
module MapShutdown {
  import opened Chunking
  import opened Counting
  import opened MapExecutor
  import opened MapProgress
  import opened MapCalls

  function PollWeight(w: Worker): int { if w.Polling? then 1 else 0 }

  /** How many workers wait on the queue. */
  function Waiters(s: State): nat {
    SumNonNegative(PollWeight, s.workers);
    Sum(PollWeight, s.workers)
  }

  /** Since `s`, the chunks of `all` were queued after each other, those of `s` first, and the first `n` of them have
      been received. While one of those of `s` is left, a worker stops waiting on the queue only by receiving. */
  ghost predicate Since(s: State, t: State, all: seq<Job>, n: nat) {
    && !t.running && s.queue <= all && n <= |all| && t.queue == all[n..]
    && n + Waiters(t) <= Waiters(s)
    && (n < |s.queue| ==> n + Waiters(t) == Waiters(s))
  }

  ghost predicate SinceShutdown(pool: Pool, s: State, t: State) {
    Inv(pool, t) && exists all, n :: Since(s, t, all, n)
  }

  lemma SinceWorker(pool: Pool, s: State, t: State, all: seq<Job>, n: nat, step: Step, u: State)
    requires Inv(pool, t) && Since(s, t, all, n) && NextStep(pool, t, step, u) && OfWorker(step)
    ensures Since(s, u, all, if step.Take? then n + 1 else n)
  {
    SumUpdate(PollWeight, t.workers, step.w, u.workers[step.w]);
  }

  lemma SinceStep(pool: Pool, s: State, t: State, all: seq<Job>, n: nat, step: Step, u: State)
    requires Inv(pool, t) && Since(s, t, all, n) && NextStep(pool, t, step, u) && Inv(pool, u)
    ensures SinceShutdown(pool, s, u)
  {
    if OfWorker(step) {
      SinceWorker(pool, s, t, all, n, step, u);
    } else if step.Send? {
      var job := (step.c, t.calls[step.c].next);
      assert u.queue == (all + [job])[n..];
      assert Since(s, u, all + [job], n);
    } else {
      assert Since(s, u, all, n);
    }
  }

  /** The exact account of what has been received since shutdown, in every run: calls that were already admitted may
      still add chunks, behind the others. */
  lemma AfterShutdown(pool: Pool, s: State, t: State) returns (all: seq<Job>, n: nat)
    requires Inv(pool, s) && !s.running && Leads(pool, s, t)
    ensures Inv(pool, t) && Since(s, t, all, n)
  {
    var P := u => SinceShutdown(pool, s, u);
    assert Since(s, s, s.queue, 0);
    forall u: State, step: Step, v: State | P(u) && NextStep(pool, u, step, v)
      ensures P(v)
    {
      var before, m :| Since(s, u, before, m);
      StepInv(pool, u, step, v);
      SinceStep(pool, s, u, before, m, step, v);
    }
    LeadsKeeps(pool, P, s, t);
    all, n :| Since(s, t, all, n);
  }

  lemma {:induction false} SomeoneWaits(workers: seq<Worker>) returns (w: nat)
    requires Sum(PollWeight, workers) > 0
    ensures w < |workers| && workers[w].Polling?
    decreases |workers|
  {
    if workers[0].Polling? {
      w := 0;
    } else {
      w := SomeoneWaits(workers[1..]);
      w := w + 1;
    }
  }

  lemma {:induction false} ReceiveSome(pool: Pool, s: State, m: nat) returns (t: State)
    requires Inv(pool, s) && m <= Waiters(s) && m <= |s.queue|
    ensures Leads(pool, s, t) && t.queue == s.queue[m..] && Waiters(t) == Waiters(s) - m
    decreases m
  {
    if m == 0 {
      LeadsNowhere(pool, s);
      return s;
    }
    var r := ReceiveSome(pool, s, m - 1);
    var w := SomeoneWaits(r.workers);
    t := r.(queue := r.queue[1..], workers := r.workers[w := Taken(r.queue[0])]);
    SumUpdate(PollWeight, r.workers, w, Taken(r.queue[0]));
    LeadsStep(pool, s, r, Take(w), t);
  }

  lemma {:induction false} CountTwice(s: seq<Job>, i: nat, j: nat)
    requires i < j < |s|
    ensures s[i] == s[j] ==> Count(s, s[i]) >= 2
    decreases |s|
  {
    if i == 0 {
      assert s[1..][j - 1] == s[j];
      CountPositive(s[1..], s[j]);
    } else {
      CountTwice(s[1..], i - 1, j - 1);
    }
  }

  lemma QueuedOnce(pool: Pool, s: State, i: nat, j: nat)
    requires Inv(pool, s) && i < j < |s.queue|
    ensures s.queue[i] != s.queue[j]
  {
    CountTwice(s.queue, i, j);
    SumNonNegative(Holds(s.queue[i]), s.workers);
    assert Places(s, s.queue[i]) <= 1;
  }

  ghost predicate CanBeReceived(pool: Pool, s: State, job: Job) {
    exists t :: Leads(pool, s, t) && job !in t.queue
  }

  /** After shutdown a queued chunk can still be received exactly if there are more waiting workers than chunks
      before it. */
  lemma ReceivedIff(pool: Pool, s: State, k: nat)
    requires Inv(pool, s) && !s.running && k < |s.queue|
    ensures CanBeReceived(pool, s, s.queue[k]) <==> k < Waiters(s)
  {
    if k < Waiters(s) {
      var t := ReceiveSome(pool, s, k + 1);
      forall j | k < j < |s.queue|
        ensures s.queue[j] != s.queue[k]
      {
        QueuedOnce(pool, s, k, j);
      }
      assert s.queue[k] !in t.queue;
    } else {
      forall t | Leads(pool, s, t)
        ensures s.queue[k] in t.queue
      {
        var all, n := AfterShutdown(pool, s, t);
        assert t.queue[k - n] == all[k] == s.queue[k];
      }
    }
  }

  /** Everything pending can be drained exactly if there are as many waiting workers as queued chunks. */
  lemma DrainedIff(pool: Pool, s: State)
    requires Inv(pool, s) && !s.running
    ensures (exists t :: Leads(pool, s, t) && t.queue == []) <==> |s.queue| <= Waiters(s)
  {
    if |s.queue| <= Waiters(s) {
      var t := ReceiveSome(pool, s, |s.queue|);
    } else {
      forall t | Leads(pool, s, t)
        ensures t.queue != []
      {
        var all, n := AfterShutdown(pool, s, t);
      }
    }
  }

  /** And no run stops short of that: when no worker waits on the queue any more, or nothing is queued, the chunks that
      were queued at shutdown have been received up to one for each worker that was waiting, and the others are still
      there in front. */
  lemma NoneIsPassedOver(pool: Pool, s: State, t: State) returns (all: seq<Job>, n: nat)
    requires Inv(pool, s) && !s.running && Leads(pool, s, t) && (t.queue == [] || Waiters(t) == 0)
    ensures Since(s, t, all, n)
    ensures if |s.queue| <= Waiters(s) then |s.queue| <= n else n == Waiters(s) && s.queue[n..] <= t.queue
  {
    all, n := AfterShutdown(pool, s, t);
    if |s.queue| > Waiters(s) {
      assert all[..|s.queue|] == s.queue;
    }
  }

  /** A call with a chunk too far back never returns. */
  lemma StrandedNeverReturns(pool: Pool, s: State, k: nat, t: State)
    requires Inv(pool, s) && !s.running && Waiters(s) <= k < |s.queue| && Leads(pool, s, t)
    ensures var c := s.queue[k].0; c < |t.calls| && !t.calls[c].Returned?
  {
    ReceivedIff(pool, s, k);
    LeadsInv(pool, s, t);
    QueuedNotReturned(pool, t, s.queue[k]);
  }

  lemma QueuedNotReturned(pool: Pool, s: State, job: Job)
    requires Inv(pool, s) && job in s.queue
    ensures job.0 < |s.calls| && !s.calls[job.0].Returned?
  {
    IsOutstanding(pool, s, job);
  }

  lemma IsOutstanding(pool: Pool, s: State, job: Job)
    requires Inv(pool, s) && job in s.queue
    ensures Outstanding(pool, s, job)
  {
    CountPositive(s.queue, job);
    SumNonNegative(Holds(job), s.workers);
    assert Places(s, job) >= 1;
  }

  // ----- When shutdown can strand work -----

  ghost predicate Strands(s: State) { !s.running && |s.queue| > Waiters(s) }

  predicate SomeCallHasChunks(pool: Pool)
    requires pool.Valid()
  {
    exists c :: 0 <= c < |pool.calls| && pool.ChunksOf(c) != []
  }

  /** Shutdown can strand chunks exactly if some call has any: it may come between the call's look at `running` and its
      first chunk. */
  lemma StrandsIff(pool: Pool)
    requires pool.Valid()
    ensures (exists s :: Reachable(pool, s) && Strands(s)) <==> SomeCallHasChunks(pool)
  {
    if SomeCallHasChunks(pool) {
      var c :| 0 <= c < |pool.calls| && pool.ChunksOf(c) != [];
      StrandLate(pool, c);
    } else {
      forall s | Reachable(pool, s)
        ensures !Strands(s)
      {
        if s.queue != [] {
          QueuedHasChunks(pool, s);
        }
      }
    }
  }

  lemma QueuedHasChunks(pool: Pool, s: State)
    requires pool.Valid() && Reachable(pool, s) && s.queue != []
    ensures SomeCallHasChunks(pool)
  {
    ReachInv(pool, s);
    var c := s.queue[0].0;
    IsOutstanding(pool, s, s.queue[0]);
    assert CallOk(pool, s.calls[c], c);
    assert pool.ChunksOf(c) != [];
  }

  /** The run: the call looks at `running`, the executor is shut down, the call sends its first chunk. */
  lemma StrandLate(pool: Pool, c: nat)
    requires pool.Valid() && c < |pool.calls| && pool.ChunksOf(c) != []
    ensures exists s :: Reachable(pool, s) && Strands(s)
  {
    StartReachable(pool);
    var s := TimedOut(pool, 0);
    var admitted := s.(calls := s.calls[c := Admitted]);
    ReachStep(pool, s, Enter(c), admitted);
    var down := admitted.(running := false);
    ReachStep(pool, admitted, Shutdown, down);
    var sending := down.(calls := down.calls[c := Sending(0)], gil := CallHolds(c));
    ReachStep(pool, down, Begin(c), sending);
    var last := 1 == |pool.ChunksOf(c)|;
    var t := sending.(queue := [(c, 0)], calls := sending.calls[c := if last then Collecting([]) else Sending(1)],
                      gil := if last then Free else CallHolds(c));
    assert sending.queue + [(c, 0)] == t.queue;
    ReachStep(pool, sending, Send(c), t);
    SumUniform(PollWeight, t.workers, 0);
    assert Strands(t);
  }

  /** Shutdown is taken while more chunks are queued than workers wait for. */
  ghost predicate FindsTooMany(s: State) { s.running && s.gil == Free && |s.queue| > Waiters(s) }

  /** Some call makes chunks, and fits into the queue and the workers' hands. */
  predicate SomeCallGetsThrough(pool: Pool)
    requires pool.Valid()
  {
    exists c :: 0 <= c < |pool.calls| && pool.ChunksOf(c) != [] && Fits(pool, c)
  }

  lemma QueuedGotThrough(pool: Pool, s: State)
    requires pool.Valid() && Reachable(pool, s) && s.gil == Free && s.queue != []
    ensures SomeCallGetsThrough(pool)
  {
    ReachInv(pool, s);
    var job := s.queue[0];
    IsOutstanding(pool, s, job);
    var c := job.0;
    assert s.calls[c].Collecting?;
    assert CallOk(pool, s.calls[c], c);
    if !Fits(pool, c) {
      TooLargeNeverReturns(pool, s, c);
    }
  }

  /** Shutdown, which needs the lock, can find chunks queued that nobody will receive exactly if some call with items
      can get all its chunks out; otherwise whoever sends keeps the lock. */
  lemma FindsTooManyIff(pool: Pool)
    requires pool.Valid()
    ensures (exists s :: Reachable(pool, s) && FindsTooMany(s)) <==> SomeCallGetsThrough(pool)
  {
    if SomeCallGetsThrough(pool) {
      var c :| 0 <= c < |pool.calls| && pool.ChunksOf(c) != [] && Fits(pool, c);
      var s := LoadAll(pool, c);
      SumUniform(PollWeight, s.workers, 0);
      assert FindsTooMany(s);
    } else {
      forall s | Reachable(pool, s)
        ensures !FindsTooMany(s)
      {
        if s.gil == Free && s.queue != [] {
          QueuedGotThrough(pool, s);
        }
      }
    }
  }
}
