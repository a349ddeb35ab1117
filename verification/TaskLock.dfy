/** The task executor with the interpreter lock: `submit` keeps it while it waits for room in the queue, and a worker
    needs it to run a handler. Every run here is a run of `Tasks`, restricted by the lock. A handler that gives the
    lock up on its way is in the same position as one that has not begun: it needs the lock to come to its end. */
module TaskLock {
  import opened Counting
  import opened Wrappers
  import opened Tasks

  /** `holder` is the task whose `submit` has the lock. */
  datatype Locked = Locked(s: State, holder: Option<Id>)

  /** A call from Python, or a handler: it needs the lock and gives it back at its end. */
  predicate NeedsLock(step: Step) { step.Submit? || step.Cancel? || step.Cleanup? || step.Shutdown? || step.Run? }

  predicate EndsSubmit(step: Step) { step.Send? || step.Refuse? || step.Handoff? }

  ghost predicate LockedStep(capacity: nat, l: Locked, step: Step, m: Locked) {
    && NextStep(capacity, l.s, step, m.s)
    && (NeedsLock(step) ==> l.holder == None)
    && (EndsSubmit(step) ==> l.holder == Some(step.id))
    && m.holder == if step.Submit? then Some(l.s.counter) else if EndsSubmit(step) then None else l.holder
  }

  ghost predicate LockedNext(capacity: nat, l: Locked, m: Locked) {
    exists step :: LockedStep(capacity, l, step, m)
  }

  ghost predicate LockedInit(l: Locked, workers: nat) { Init(l.s) && l.holder == None && |l.s.workers| == workers }

  ghost predicate LockedPath(capacity: nat, path: seq<Locked>) {
    path != [] && forall i :: 0 <= i < |path| - 1 ==> LockedNext(capacity, path[i], path[i + 1])
  }

  ghost predicate CanReach(capacity: nat, workers: nat, l: Locked) {
    exists path: seq<Locked> :: LockedPath(capacity, path) && LockedInit(path[0], workers) && path[|path| - 1] == l
  }

  lemma ReachNext(capacity: nat, workers: nat, l: Locked, step: Step, m: Locked)
    requires CanReach(capacity, workers, l) && LockedStep(capacity, l, step, m)
    ensures CanReach(capacity, workers, m)
  {
    var path: seq<Locked> :| LockedPath(capacity, path) && LockedInit(path[0], workers) && path[|path| - 1] == l;
    var longer := path + [m];
    forall i | 0 <= i < |longer| - 1
      ensures LockedNext(capacity, longer[i], longer[i + 1])
    {
      if i < |path| - 1 {
        assert LockedNext(capacity, path[i], path[i + 1]);
      }
    }
    assert LockedPath(capacity, longer) && LockedInit(longer[0], workers) && longer[|longer| - 1] == m;
  }

  // ----- Invariant -----

  function HandWeight(w: Worker): int {
    if w.Received? || w.Checked? || w.Started? || w.Executed? then 1 else 0
  }

  /** Every task that was ever submitted is counted in one place. */
  ghost predicate Counted(s: State) {
    s.counter == |s.preSend| + |s.queue| + Sum(HandWeight, s.workers) + |s.skipped| + |s.refused| + |s.finished|
  }

  ghost predicate LockedInv(l: Locked, workers: nat) {
    && Inv(l.s) && Counted(l.s) && |l.s.workers| == workers
    && l.s.preSend == (if l.holder.Some? then {l.holder.value} else {})
    && (l.s.running ==> forall w :: 0 <= w < |l.s.workers| ==> l.s.workers[w] != Stopped)
  }

  lemma LockedInitInv(l: Locked, workers: nat)
    requires LockedInit(l, workers)
    ensures LockedInv(l, workers)
  {
    InitInv(l.s);
    SumUniform(HandWeight, l.s.workers, 0);
  }

  lemma WorkerStepCounted(capacity: nat, s: State, step: Step, t: State)
    requires Inv(s) && Counted(s) && NextStep(capacity, s, step, t) && MovesWorker(step)
    ensures Counted(t)
  {
    if step.Check? || step.Publish? {
      EndCounted(capacity, s, step, t);
    } else {
      SumUpdate(HandWeight, s.workers, step.w, t.workers[step.w]);
    }
  }

  lemma EndCounted(capacity: nat, s: State, step: Step, t: State)
    requires Inv(s) && Counted(s) && NextStep(capacity, s, step, t) && (step.Check? || step.Publish?)
    ensures Counted(t)
  {
    SumUpdate(HandWeight, s.workers, step.w, t.workers[step.w]);
    HeldIsNotDone(s, step.w, s.workers[step.w].id);
  }

  lemma OtherStepCounted(capacity: nat, s: State, step: Step, t: State)
    requires Inv(s) && Counted(s) && NextStep(capacity, s, step, t) && !MovesWorker(step)
    ensures Counted(t)
  {
    assert t.workers == s.workers;
    var id := if step.Submit? then s.counter else if step.Refuse? then step.id else 0;
    assert Places(s, id) == Bit(id < s.counter);
    SumNonNegative(Holds(id), s.workers);
  }

  lemma HolderStep(capacity: nat, workers: nat, l: Locked, step: Step, m: Locked)
    requires LockedInv(l, workers) && LockedStep(capacity, l, step, m)
    ensures m.s.preSend == (if m.holder.Some? then {m.holder.value} else {}) && |m.s.workers| == workers
  {
  }

  lemma StoppedStep(capacity: nat, workers: nat, l: Locked, step: Step, m: Locked)
    requires LockedInv(l, workers) && LockedStep(capacity, l, step, m)
    ensures m.s.running ==> forall w :: 0 <= w < |m.s.workers| ==> m.s.workers[w] != Stopped
  {
  }

  lemma LockedStepInv(capacity: nat, workers: nat, l: Locked, step: Step, m: Locked)
    requires LockedInv(l, workers) && LockedStep(capacity, l, step, m)
    ensures LockedInv(m, workers)
  {
    StepInv(capacity, l.s, step, m.s);
    HolderStep(capacity, workers, l, step, m);
    StoppedStep(capacity, workers, l, step, m);
    if MovesWorker(step) {
      WorkerStepCounted(capacity, l.s, step, m.s);
    } else {
      OtherStepCounted(capacity, l.s, step, m.s);
    }
  }

  lemma {:induction false} PathLockedInv(capacity: nat, workers: nat, path: seq<Locked>, i: nat)
    requires LockedPath(capacity, path) && LockedInit(path[0], workers) && i < |path|
    ensures LockedInv(path[i], workers)
  {
    if i == 0 {
      LockedInitInv(path[0], workers);
    } else {
      PathLockedInv(capacity, workers, path, i - 1);
      assert LockedNext(capacity, path[i - 1], path[i - 1 + 1]);
      var step :| LockedStep(capacity, path[i - 1], step, path[i]);
      LockedStepInv(capacity, workers, path[i - 1], step, path[i]);
    }
  }

  lemma ReachLockedInv(capacity: nat, workers: nat, l: Locked)
    requires CanReach(capacity, workers, l)
    ensures LockedInv(l, workers)
  {
    var path: seq<Locked> :| LockedPath(capacity, path) && LockedInit(path[0], workers) && path[|path| - 1] == l;
    PathLockedInv(capacity, workers, path, |path| - 1);
  }

  // ----- Deadlock -----

  /** A `submit` waits with the lock for room in a full queue, and every worker that has not stopped waits for the
      lock. */
  ghost predicate Hung(capacity: nat, l: Locked) {
    && l.holder.Some? && |l.s.queue| >= capacity
    && (forall w :: 0 <= w < |l.s.workers| ==> l.s.workers[w].Started? || l.s.workers[w].Stopped?)
    && !NobodyLeft(l.s)
  }

  ghost predicate CanMove(capacity: nat, l: Locked) {
    exists m :: LockedNext(capacity, l, m)
  }

  lemma Moves(capacity: nat, l: Locked, step: Step, t: State)
    requires NextStep(capacity, l.s, step, t) && !NeedsLock(step) && (EndsSubmit(step) ==> l.holder == Some(step.id))
    ensures CanMove(capacity, l)
  {
    var m := Locked(t, if EndsSubmit(step) then None else l.holder);
    assert LockedStep(capacity, l, step, m);
    assert LockedNext(capacity, l, m);
  }

  lemma WorkerMoves(capacity: nat, l: Locked, w: nat)
    requires w < |l.s.workers| && !l.s.workers[w].Started? && !l.s.workers[w].Stopped?
    ensures CanMove(capacity, l)
  {
    var s := l.s;
    match s.workers[w] {
      case Idle =>
        if s.running {
          Moves(capacity, l, Poll(w), s.(workers := s.workers[w := Polling]));
        } else {
          Moves(capacity, l, Stop(w), s.(workers := s.workers[w := Stopped]));
        }
      case Polling => Moves(capacity, l, Timeout(w), s.(workers := s.workers[w := Idle]));
      case Received(id) =>
        var t := if id in s.results && s.results[id].status == Cancelled
                 then s.(workers := s.workers[w := Idle], skipped := s.skipped + {id})
                 else s.(workers := s.workers[w := Checked(id)]);
        Moves(capacity, l, Check(w), t);
      case Checked(id) =>
        var t := s.(workers := s.workers[w := Started(id)], results := StartRecord(s.results, id, 0.0));
        Moves(capacity, l, Start(w, 0.0), t);
      case Executed(id, outcome) =>
        var t := s.(workers := s.workers[w := Idle], finished := s.finished + {id},
                    results := PublishRecord(s.results, id, outcome, 0.0));
        Moves(capacity, l, Publish(w, 0.0), t);
    }
  }

  /** While a `submit` has the lock, nothing at all can happen any more exactly in the hung states. */
  lemma DeadlockIff(capacity: nat, workers: nat, l: Locked)
    requires LockedInv(l, workers) && l.holder.Some?
    ensures !CanMove(capacity, l) <==> Hung(capacity, l)
  {
    var s, id := l.s, l.holder.value;
    if !Hung(capacity, l) {
      if NobodyLeft(s) {
        Moves(capacity, l, Refuse(id), s.(preSend := s.preSend - {id}, refused := s.refused + {id}));
      } else if |s.queue| < capacity {
        Moves(capacity, l, Send(id), s.(preSend := s.preSend - {id}, queue := s.queue + [id]));
      } else {
        var w :| 0 <= w < |s.workers| && !s.workers[w].Started? && !s.workers[w].Stopped?;
        WorkerMoves(capacity, l, w);
      }
    }
  }

  // ----- When it can hang -----

  lemma HungNeeds(capacity: nat, workers: nat, l: Locked)
    requires LockedInv(l, workers) && Hung(capacity, l)
    ensures workers > 0 && l.s.counter >= capacity + 2
    ensures l.s.running ==> l.s.counter >= capacity + workers + 1
  {
    var w :| 0 <= w < |l.s.workers| && l.s.workers[w] != Stopped;
    SumAtLeast(HandWeight, l.s.workers, w);
    if l.s.running {
      SumUniform(HandWeight, l.s.workers, 1);
    }
  }

  /** No `submit` is under way; the first `k` workers wait for the lock and the others are idle or, once the executor
      was shut down, have stopped up to `stopped`. */
  ghost predicate Prepared(l: Locked, workers: nat, k: nat, stopped: nat, queued: nat) {
    && l.holder == None && l.s.preSend == {} && |l.s.workers| == workers
    && |l.s.queue| == queued && l.s.counter == k + queued
    && (forall w :: 0 <= w < workers ==>
          if w < k then l.s.workers[w].Started?
          else if w < stopped then l.s.workers[w] == Stopped
          else l.s.workers[w] == Idle)
  }

  ghost predicate CanPrepare(capacity: nat, workers: nat, k: nat, stopped: nat, queued: nat, running: bool) {
    exists l :: CanReach(capacity, workers, l) && Prepared(l, workers, k, stopped, queued) && l.s.running == running
  }

  lemma PrepareNothing(capacity: nat, workers: nat)
    ensures CanPrepare(capacity, workers, 0, 0, 0, true)
  {
    var l := Locked(State(true, 0, map[], {}, [], seq(workers, i => Idle), {}, {}, {}, []), None);
    assert LockedPath(capacity, [l]) && LockedInit([l][0], workers);
    assert Prepared(l, workers, 0, 0, 0);
  }

  lemma ReachSubmit(capacity: nat, workers: nat, l: Locked) returns (m: Locked)
    requires CanReach(capacity, workers, l) && l.holder == None
    ensures CanReach(capacity, workers, m) && m.holder == Some(l.s.counter)
    ensures m.s == l.s.(counter := l.s.counter + 1, results := l.s.results[l.s.counter := NEW_RECORD],
                        preSend := l.s.preSend + {l.s.counter})
  {
    m := Locked(l.s.(counter := l.s.counter + 1, results := l.s.results[l.s.counter := NEW_RECORD],
                     preSend := l.s.preSend + {l.s.counter}), Some(l.s.counter));
    ReachNext(capacity, workers, l, Submit, m);
  }

  lemma ReachPoll(capacity: nat, workers: nat, l: Locked, k: nat) returns (m: Locked)
    requires CanReach(capacity, workers, l) && l.s.running && k < |l.s.workers| && l.s.workers[k] == Idle
    ensures CanReach(capacity, workers, m) && m == l.(s := l.s.(workers := l.s.workers[k := Polling]))
  {
    m := l.(s := l.s.(workers := l.s.workers[k := Polling]));
    ReachNext(capacity, workers, l, Poll(k), m);
  }

  /** The task whose `submit` has the lock goes to a polling worker. */
  lemma ReachHandedOver(capacity: nat, workers: nat, l: Locked, id: Id, k: nat) returns (m: Locked)
    requires CanReach(capacity, workers, l) && l.holder == Some(id) && l.s.preSend == {id} && l.s.queue == []
    requires k < |l.s.workers| && l.s.workers[k] == Polling
    ensures CanReach(capacity, workers, m)
    ensures m == Locked(l.s.(preSend := {}, workers := l.s.workers[k := Received(id)]), None)
  {
    m := Locked(l.s.(preSend := {}, workers := l.s.workers[k := Received(id)]), None);
    assert l.s.preSend - {id} == {};
    if capacity == 0 {
      ReachNext(capacity, workers, l, Handoff(id, k), m);
    } else {
      var sent := Locked(l.s.(preSend := {}, queue := [id]), None);
      assert l.s.queue + [id] == [id];
      ReachNext(capacity, workers, l, Send(id), sent);
      ReachNext(capacity, workers, sent, Take(k), m);
    }
  }

  /** Its worker looks at its status and marks it as running. */
  lemma ReachStarted(capacity: nat, workers: nat, l: Locked, id: Id, k: nat) returns (m: Locked)
    requires CanReach(capacity, workers, l) && k < |l.s.workers| && l.s.workers[k] == Received(id)
    requires id in l.s.results && l.s.results[id].status == Pending
    ensures CanReach(capacity, workers, m)
    ensures m == l.(s := l.s.(workers := l.s.workers[k := Started(id)], results := StartRecord(l.s.results, id, 0.0)))
  {
    var checked := l.(s := l.s.(workers := l.s.workers[k := Checked(id)]));
    ReachNext(capacity, workers, l, Check(k), checked);
    m := l.(s := l.s.(workers := l.s.workers[k := Started(id)], results := StartRecord(l.s.results, id, 0.0)));
    assert checked.s.workers[k := Started(id)] == m.s.workers;
    ReachNext(capacity, workers, checked, Start(k, 0.0), m);
  }

  lemma OneMoreStarted(capacity: nat, workers: nat, k: nat)
    requires CanPrepare(capacity, workers, k, k, 0, true) && k < workers
    ensures CanPrepare(capacity, workers, k + 1, k + 1, 0, true)
  {
    var l :| CanReach(capacity, workers, l) && Prepared(l, workers, k, k, 0) && l.s.running == true;
    var id := l.s.counter;
    var submitted := ReachSubmit(capacity, workers, l);
    var polling := ReachPoll(capacity, workers, submitted, k);
    var received := ReachHandedOver(capacity, workers, polling, id, k);
    var m := ReachStarted(capacity, workers, received, id, k);
    StartedIsPrepared(l, workers, k, m);
  }

  lemma StartedIsPrepared(l: Locked, workers: nat, k: nat, m: Locked)
    requires Prepared(l, workers, k, k, 0) && k < workers && m.holder == None && m.s.preSend == {} && m.s.queue == []
    requires m.s.counter == l.s.counter + 1
    requires m.s.workers == l.s.workers[k := Polling][k := Received(l.s.counter)][k := Started(l.s.counter)]
    ensures Prepared(m, workers, k + 1, k + 1, 0)
  {
  }

  lemma {:induction false} StartSome(capacity: nat, workers: nat, k: nat)
    requires k <= workers
    ensures CanPrepare(capacity, workers, k, k, 0, true)
  {
    if k == 0 {
      PrepareNothing(capacity, workers);
    } else {
      StartSome(capacity, workers, k - 1);
      OneMoreStarted(capacity, workers, k - 1);
    }
  }

  lemma StopNone(capacity: nat, workers: nat)
    requires 1 <= workers
    ensures CanPrepare(capacity, workers, 1, 1, 0, false)
  {
    StartSome(capacity, workers, 1);
    var l :| CanReach(capacity, workers, l) && Prepared(l, workers, 1, 1, 0) && l.s.running == true;
    var m := ReachShutdown(capacity, workers, l);
    assert Prepared(m, workers, 1, 1, 0);
  }

  lemma ReachShutdown(capacity: nat, workers: nat, l: Locked) returns (m: Locked)
    requires CanReach(capacity, workers, l) && l.holder == None
    ensures CanReach(capacity, workers, m) && m == l.(s := l.s.(running := false))
  {
    m := l.(s := l.s.(running := false));
    ReachNext(capacity, workers, l, Shutdown, m);
  }

  lemma StopOneMore(capacity: nat, workers: nat, stopped: nat)
    requires 1 <= stopped < workers && CanPrepare(capacity, workers, 1, stopped, 0, false)
    ensures CanPrepare(capacity, workers, 1, stopped + 1, 0, false)
  {
    var l :| CanReach(capacity, workers, l) && Prepared(l, workers, 1, stopped, 0) && l.s.running == false;
    var m := Locked(l.s.(workers := l.s.workers[stopped := Stopped]), None);
    ReachNext(capacity, workers, l, Stop(stopped), m);
    assert Prepared(m, workers, 1, stopped + 1, 0);
  }

  /** After shutdown the idle workers stop. */
  lemma {:induction false} StopOthers(capacity: nat, workers: nat, stopped: nat)
    requires 1 <= stopped <= workers
    ensures CanPrepare(capacity, workers, 1, stopped, 0, false)
  {
    if stopped == 1 {
      StopNone(capacity, workers);
    } else {
      StopOthers(capacity, workers, stopped - 1);
      StopOneMore(capacity, workers, stopped - 1);
    }
  }

  lemma QueueOne(capacity: nat, workers: nat, k: nat, stopped: nat, queued: nat, running: bool)
    requires CanPrepare(capacity, workers, k, stopped, queued, running) && 0 < k <= workers && queued < capacity
    ensures CanPrepare(capacity, workers, k, stopped, queued + 1, running)
  {
    var l :| CanReach(capacity, workers, l) && Prepared(l, workers, k, stopped, queued) && l.s.running == running;
    var id := l.s.counter;
    var submitted := ReachSubmit(capacity, workers, l);
    var m := Locked(submitted.s.(preSend := {}, queue := submitted.s.queue + [id]), None);
    assert submitted.s.preSend - {id} == {} && submitted.s.workers[0].Started?;
    ReachNext(capacity, workers, submitted, Send(id), m);
    assert Prepared(m, workers, k, stopped, queued + 1);
  }

  lemma {:induction false} QueueSome(capacity: nat, workers: nat, k: nat, stopped: nat, queued: nat, running: bool)
    requires CanPrepare(capacity, workers, k, stopped, 0, running) && 0 < k <= workers && queued <= capacity
    ensures CanPrepare(capacity, workers, k, stopped, queued, running)
  {
    if queued == 0 {
    } else {
      QueueSome(capacity, workers, k, stopped, queued - 1, running);
      QueueOne(capacity, workers, k, stopped, queued - 1, running);
    }
  }

  /** One `submit` more and everything hangs. */
  lemma HangNow(capacity: nat, workers: nat, k: nat, running: bool) returns (m: Locked)
    requires CanPrepare(capacity, workers, k, workers, 0, running) && 0 < k <= workers
    ensures CanReach(capacity, workers, m) && Hung(capacity, m) && m.s.counter == capacity + k + 1 &&
        m.s.running == running
  {
    QueueSome(capacity, workers, k, workers, capacity, running);
    var l :| CanReach(capacity, workers, l) && Prepared(l, workers, k, workers, capacity) && l.s.running == running;
    m := ReachSubmit(capacity, workers, l);
    assert m.s.workers[0].Started?;
  }

  /** Some run with at most `n` submissions hangs. */
  ghost predicate CanHang(capacity: nat, workers: nat, n: nat) {
    exists l :: CanReach(capacity, workers, l) && Hung(capacity, l) && l.s.counter <= n
  }

  /** The same without a shutdown. */
  ghost predicate CanHangRunning(capacity: nat, workers: nat, n: nat) {
    exists l :: CanReach(capacity, workers, l) && Hung(capacity, l) && l.s.counter <= n && l.s.running
  }

  /** A running executor can hang exactly if there are more submissions than its queue and its workers hold. After a
      shutdown one worker that still has a task is enough, because the others stop. */
  lemma HangsIff(capacity: nat, workers: nat, n: nat)
    ensures CanHangRunning(capacity, workers, n) <==> workers > 0 && n > capacity + workers
    ensures CanHang(capacity, workers, n) <==> workers > 0 && n > capacity + 1
  {
    forall l | CanReach(capacity, workers, l) && Hung(capacity, l)
      ensures workers > 0 && l.s.counter >= capacity + 2
      ensures l.s.running ==> l.s.counter >= capacity + workers + 1
    {
      ReachLockedInv(capacity, workers, l);
      HungNeeds(capacity, workers, l);
    }
    if workers > 0 {
      StartSome(capacity, workers, workers);
      var m := HangNow(capacity, workers, workers, true);
      StopOthers(capacity, workers, workers);
      var d := HangNow(capacity, workers, 1, false);
    }
  }
}
