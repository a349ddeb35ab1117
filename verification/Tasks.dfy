/** The background `TaskExecutor` as a step system: submitters, cancellers, clean-up and
    any number of workers interleave freely over one bounded queue and one status table. */
module Tasks {
  import opened Counting
  import opened Wrappers

  datatype Status = Pending | Running | Completed | Failed | Cancelled

  datatype Record = Record(
    status: Status, result: Option<string>, error: Option<string>,
    startedAt: Option<real>, completedAt: Option<real>)

  datatype Outcome = Success(result: string) | Failure(error: string)

  /** A task's identifier is its submission number. */
  type Id = nat

  /** Where a worker is in its loop. */
  datatype Worker =
    | Idle
    | Polling                            // saw `running`, waits on the queue
    | Received(id: Id)                   // has a task, has not looked at its status
    | Checked(id: Id)                    // not cancelled when it looked; may sleep for the delay
    | Started(id: Id)                    // wrote `Running`
    | Executed(id: Id, outcome: Outcome) // the handler returned
    | Stopped

  datatype State = State(
    running: bool,
    counter: nat,
    results: map<Id, Record>,
    preSend: set<Id>,      // recorded as pending, not yet on the queue
    queue: seq<Id>,
    workers: seq<Worker>,
    skipped: set<Id>,      // history: dropped at the check
    refused: set<Id>,      // history: could not be queued, since every worker had stopped
    finished: set<Id>,     // history: ran and published
    log: seq<Id>)          // history: handler calls, in order

  datatype Step =
    | Submit
    | Send(id: Id)
    | Refuse(id: Id)            // the queue has no receiver left: `submit` raises
    | Handoff(id: Id, w: nat)   // a queue of capacity 0 passes the task directly
    | Cancel(id: Id)
    | Cleanup(threshold: real)
    | Shutdown
    | Poll(w: nat)
    | Timeout(w: nat)
    | Stop(w: nat)
    | Take(w: nat)
    | Check(w: nat)
    | Start(w: nat, now: real)
    | Run(w: nat, outcome: Outcome)
    | Publish(w: nat, now: real)

  const NEW_RECORD := Record(Pending, None, None, None, None)

  function CancelRecord(results: map<Id, Record>, id: Id): map<Id, Record> {
    if id in results && results[id].status == Pending then results[id := results[id].(status := Cancelled)] else results
  }

  function StartRecord(results: map<Id, Record>, id: Id, now: real): map<Id, Record> {
    if id in results then results[id := results[id].(status := Running, startedAt := Some(now))] else results
  }

  function PublishRecord(results: map<Id, Record>, id: Id, outcome: Outcome, now: real): map<Id, Record> {
    if id !in results then results
    else
      match outcome
      case Success(r) => results[id := results[id].(status := Completed, result := Some(r), completedAt := Some(now))]
      case Failure(e) => results[id := results[id].(status := Failed, error := Some(e), completedAt := Some(now))]
  }

  function CleanRecords(results: map<Id, Record>, threshold: real): map<Id, Record> {
    map id | id in results && (results[id].completedAt.Some? ==> results[id].completedAt.value > threshold)
      :: results[id]
  }

  predicate IsWorker(s: State, w: nat) { w < |s.workers| }

  predicate NobodyLeft(s: State) { forall w :: 0 <= w < |s.workers| ==> s.workers[w] == Stopped }

  ghost predicate NextStep(capacity: nat, s: State, step: Step, t: State) {
    match step
    case Submit =>
      t == s.(counter := s.counter + 1, results := s.results[s.counter := NEW_RECORD],
          preSend := s.preSend + {s.counter})
    case Send(id) =>
      && id in s.preSend && |s.queue| < capacity && !NobodyLeft(s)
      && t == s.(preSend := s.preSend - {id}, queue := s.queue + [id])
    case Refuse(id) =>
      && id in s.preSend && NobodyLeft(s)
      && t == s.(preSend := s.preSend - {id}, refused := s.refused + {id})
    case Handoff(id, w) =>
      && id in s.preSend && capacity == 0 && IsWorker(s, w) && s.workers[w] == Polling
      && t == s.(preSend := s.preSend - {id}, workers := s.workers[w := Received(id)])
    case Cancel(id) => t == s.(results := CancelRecord(s.results, id))
    case Cleanup(threshold) => t == s.(results := CleanRecords(s.results, threshold))
    case Shutdown => t == s.(running := false)
    case Poll(w) =>
      IsWorker(s, w) && s.workers[w] == Idle && s.running && t == s.(workers := s.workers[w := Polling])
    case Timeout(w) =>
      IsWorker(s, w) && s.workers[w] == Polling && t == s.(workers := s.workers[w := Idle])
    case Stop(w) =>
      IsWorker(s, w) && s.workers[w] == Idle && !s.running && t == s.(workers := s.workers[w := Stopped])
    case Take(w) =>
      && IsWorker(s, w) && s.workers[w] == Polling && s.queue != []
      && t == s.(queue := s.queue[1..], workers := s.workers[w := Received(s.queue[0])])
    case Check(w) =>
      && IsWorker(s, w) && s.workers[w].Received?
      && var id := s.workers[w].id;
         t == if id in s.results && s.results[id].status == Cancelled
              then s.(workers := s.workers[w := Idle], skipped := s.skipped + {id})
              else s.(workers := s.workers[w := Checked(id)])
    case Start(w, now) =>
      && IsWorker(s, w) && s.workers[w].Checked?
      && var id := s.workers[w].id;
         t == s.(workers := s.workers[w := Started(id)], results := StartRecord(s.results, id, now))
    case Run(w, outcome) =>
      && IsWorker(s, w) && s.workers[w].Started?
      && var id := s.workers[w].id;
         t == s.(workers := s.workers[w := Executed(id, outcome)], log := s.log + [id])
    case Publish(w, now) =>
      && IsWorker(s, w) && s.workers[w].Executed?
      && var Executed(id, outcome) := s.workers[w];
         t == s.(workers := s.workers[w := Idle], finished := s.finished + {id},
                 results := PublishRecord(s.results, id, outcome, now))
  }

  ghost predicate Init(s: State) {
    && s.running && s.counter == 0 && s.results == map[] && s.preSend == {} && s.queue == []
    && s.skipped == {} && s.refused == {} && s.finished == {} && s.log == []
    && forall w :: 0 <= w < |s.workers| ==> s.workers[w] == Idle
  }

  // ----- Where a task is -----

  function Holds(id: Id): Worker -> int {
    (w: Worker) => if (w.Received? || w.Checked? || w.Started? || w.Executed?) && w.id == id then 1 else 0
  }

  /** Workers between the end of the handler and publishing its outcome. */
  function Ran(id: Id): Worker -> int {
    (w: Worker) => if w.Executed? && w.id == id then 1 else 0
  }

  function Bit(b: bool): int { if b then 1 else 0 }

  function Places(s: State, id: Id): int {
    Bit(id in s.preSend) + Count(s.queue, id) + Sum(Holds(id), s.workers)
    + Bit(id in s.skipped) + Bit(id in s.refused) + Bit(id in s.finished)
  }

  /** Every submitted task is in exactly one of: pre-send, the queue, one worker's hands, or done, that is,
      run, dropped or refused. */
  ghost predicate OnePlace(s: State) {
    forall id: Id :: Places(s, id) == Bit(id < s.counter)
  }

  /** The handler was called once for the tasks that are past it, and never for the others. */
  ghost predicate RanOnce(s: State) {
    forall id: Id :: Count(s.log, id) == Sum(Ran(id), s.workers) + Bit(id in s.finished)
  }

  ghost predicate TableOk(s: State) {
    forall id: Id :: id in s.results ==>
      && id < s.counter
      && (s.results[id].status == Completed || s.results[id].status == Failed ==> id in s.finished)
      && (s.results[id].completedAt.Some? ==> s.results[id].status == Completed || s.results[id].status == Failed)
      && (id in s.finished ==> s.results[id].status == Completed || s.results[id].status == Failed)
      && (forall w :: 0 <= w < |s.workers| && (s.workers[w].Started? || s.workers[w].Executed?) && s.workers[w].id == id
            ==> s.results[id].status == Running)
  }

  ghost predicate Inv(s: State) {
    OnePlace(s) && RanOnce(s) && TableOk(s)
  }

  lemma {:induction false} HoldsPositive(s: State, w: nat, id: Id)
    requires w < |s.workers| && Holds(id)(s.workers[w]) == 1
    ensures Sum(Holds(id), s.workers) >= 1
  {
    SumAtLeast(Holds(id), s.workers, w);
  }

  lemma InitInv(s: State)
    requires Init(s)
    ensures Inv(s)
  {
    forall id: Id
      ensures Places(s, id) == 0 && Count(s.log, id) == 0 && Sum(Ran(id), s.workers) == 0
    {
      SumUniform(Holds(id), s.workers, 0);
      SumUniform(Ran(id), s.workers, 0);
    }
  }

  predicate MovesWorker(step: Step) {
    step.Handoff? || step.Poll? || step.Timeout? || step.Stop? || step.Take? || step.Check? || step.Start? ||
    step.Run? || step.Publish?
  }

  lemma WorkerMove(s: State, step: Step, t: State, capacity: nat, id: Id)
    requires NextStep(capacity, s, step, t) && MovesWorker(step)
    ensures Sum(Holds(id), t.workers) ==
        Sum(Holds(id), s.workers) - Holds(id)(s.workers[step.w]) + Holds(id)(t.workers[step.w])
    ensures Sum(Ran(id), t.workers) == Sum(Ran(id), s.workers) - Ran(id)(s.workers[step.w]) + Ran(id)(t.workers[step.w])
  {
    SumUpdate(Holds(id), s.workers, step.w, t.workers[step.w]);
    SumUpdate(Ran(id), s.workers, step.w, t.workers[step.w]);
  }

  lemma WorkerPlaces(capacity: nat, s: State, step: Step, t: State, id: Id)
    requires OnePlace(s) && NextStep(capacity, s, step, t) && MovesWorker(step)
    ensures Places(t, id) == Bit(id < t.counter)
  {
    assert Places(s, id) == Bit(id < s.counter);
    WorkerMove(s, step, t, capacity, id);
    SumAtLeast(Holds(id), s.workers, step.w);
  }

  lemma OtherPlaces(capacity: nat, s: State, step: Step, t: State, id: Id)
    requires OnePlace(s) && NextStep(capacity, s, step, t) && !MovesWorker(step)
    ensures Places(t, id) == Bit(id < t.counter)
  {
    assert Places(s, id) == Bit(id < s.counter);
    SumNonNegative(Holds(id), s.workers);
    assert t.workers == s.workers;
    if step.Send? {
      CountAppend(s.queue, step.id, id);
    }
  }

  lemma StepRanOnce(capacity: nat, s: State, step: Step, t: State, id: Id)
    requires Inv(s) && NextStep(capacity, s, step, t)
    ensures Count(t.log, id) == Sum(Ran(id), t.workers) + Bit(id in t.finished)
  {
    assert Count(s.log, id) == Sum(Ran(id), s.workers) + Bit(id in s.finished);
    assert Places(s, id) == Bit(id < s.counter);
    SumNonNegative(Holds(id), s.workers);
    if MovesWorker(step) {
      WorkerMove(s, step, t, capacity, id);
      SumAtLeast(Holds(id), s.workers, step.w);
    }
    if step.Run? {
      CountAppend(s.log, s.workers[step.w].id, id);
    }
  }

  /** A task in a worker's hands is not done yet. */
  lemma HeldIsNotDone(s: State, w: nat, id: Id)
    requires OnePlace(s) && w < |s.workers| && Holds(id)(s.workers[w]) == 1
    ensures id < s.counter && id !in s.preSend && id !in s.queue && id !in s.skipped && id !in s.finished
  {
    HoldsPositive(s, w, id);
    CountPositive(s.queue, id);
    assert Places(s, id) == Bit(id < s.counter);
  }

  lemma StepInv(capacity: nat, s: State, step: Step, t: State)
    requires Inv(s) && NextStep(capacity, s, step, t)
    ensures Inv(t)
  {
    forall id: Id
      ensures Places(t, id) == Bit(id < t.counter)
    {
      if MovesWorker(step) {
        WorkerPlaces(capacity, s, step, t, id);
      } else {
        OtherPlaces(capacity, s, step, t, id);
      }
    }
    forall id: Id
      ensures Count(t.log, id) == Sum(Ran(id), t.workers) + Bit(id in t.finished)
    {
      StepRanOnce(capacity, s, step, t, id);
    }
    StepTable(capacity, s, step, t);
  }

  /** A worker writes the table only for the task it alone holds. */
  lemma WriteTable(capacity: nat, s: State, step: Step, t: State)
    requires Inv(s) && NextStep(capacity, s, step, t) && (step.Start? || step.Publish?)
    ensures TableOk(t)
  {
    var id := s.workers[step.w].id;
    HeldIsNotDone(s, step.w, id);
    forall w | 0 <= w < |s.workers| && w != step.w
      ensures Holds(id)(s.workers[w]) == 0
    {
      OneHolder(s, step.w, w, id);
    }
  }

  lemma SubmitTable(capacity: nat, s: State, t: State)
    requires Inv(s) && NextStep(capacity, s, Submit, t)
    ensures TableOk(t)
  {
    assert Places(s, s.counter) == 0;
    SumNonNegative(Holds(s.counter), s.workers);
    forall w | 0 <= w < |s.workers|
      ensures Holds(s.counter)(s.workers[w]) == 0
    {
      SumAtLeast(Holds(s.counter), s.workers, w);
    }
  }

  lemma StepTable(capacity: nat, s: State, step: Step, t: State)
    requires Inv(s) && NextStep(capacity, s, step, t)
    ensures TableOk(t)
  {
    if step.Start? || step.Publish? {
      WriteTable(capacity, s, step, t);
    } else if step.Submit? {
      SubmitTable(capacity, s, t);
    } else {
      OtherTable(capacity, s, step, t);
    }
  }

  lemma OtherTable(capacity: nat, s: State, step: Step, t: State)
    requires TableOk(s) && NextStep(capacity, s, step, t) && !step.Start? && !step.Publish? && !step.Submit?
    ensures TableOk(t)
  {
  }

  lemma OneHolder(s: State, v: nat, w: nat, id: Id)
    requires OnePlace(s) && v < |s.workers| && w < |s.workers| && v != w && Holds(id)(s.workers[v]) == 1
    ensures Holds(id)(s.workers[w]) == 0
  {
    assert Places(s, id) == Bit(id < s.counter);
    var others := s.workers[v := Idle];
    SumUpdate(Holds(id), s.workers, v, Idle);
    SumAtLeast(Holds(id), others, w);
  }

  // ----- Runs -----

  ghost predicate Next(capacity: nat, s: State, t: State) {
    exists step :: NextStep(capacity, s, step, t)
  }

  ghost predicate IsRun(capacity: nat, trace: seq<State>) {
    && trace != [] && Init(trace[0])
    && forall i :: 0 <= i < |trace| - 1 ==> Next(capacity, trace[i], trace[i + 1])
  }

  lemma {:induction false} RunInv(capacity: nat, trace: seq<State>, i: nat)
    requires IsRun(capacity, trace) && i < |trace|
    ensures Inv(trace[i])
  {
    if i == 0 {
      InitInv(trace[0]);
    } else {
      RunInv(capacity, trace, i - 1);
      assert Next(capacity, trace[i - 1], trace[i - 1 + 1]);
      var step :| NextStep(capacity, trace[i - 1], step, trace[i]);
      StepInv(capacity, trace[i - 1], step, trace[i]);
    }
  }

  /** In every interleaving, no handler is called twice. */
  lemma HandlerRunsAtMostOnce(capacity: nat, trace: seq<State>, i: nat, id: Id)
    requires IsRun(capacity, trace) && i < |trace|
    ensures Count(trace[i].log, id) <= 1
  {
    var s := trace[i];
    RunInv(capacity, trace, i);
    assert Places(s, id) == Bit(id < s.counter);
    assert Count(s.log, id) == Sum(Ran(id), s.workers) + Bit(id in s.finished);
    RanAreHeld(s.workers, id);
  }

  lemma {:induction false} RanAreHeld(workers: seq<Worker>, id: Id)
    ensures 0 <= Sum(Ran(id), workers) <= Sum(Holds(id), workers)
    decreases |workers|
  {
    if workers == [] {
    } else {
      RanAreHeld(workers[1..], id);
    }
  }

  predicate Final(r: Record) { r.status == Completed || r.status == Failed }

  lemma FinalStep(capacity: nat, s: State, step: Step, t: State, id: Id)
    requires Inv(s) && NextStep(capacity, s, step, t)
    requires id in s.results && Final(s.results[id])
    ensures id in t.results ==> t.results[id] == s.results[id]
    ensures id !in t.results ==> step.Cleanup? && s.results[id].completedAt.Some?
  {
    if step.Start? || step.Publish? {
      HeldIsNotDone(s, step.w, s.workers[step.w].id);
    }
  }

  ghost predicate IsPath(capacity: nat, path: seq<State>) {
    path != [] && forall i :: 0 <= i < |path| - 1 ==> Next(capacity, path[i], path[i + 1])
  }

  lemma {:induction false} PathInv(capacity: nat, path: seq<State>, i: nat)
    requires IsPath(capacity, path) && Inv(path[0]) && i < |path|
    ensures Inv(path[i])
  {
    if i == 0 {
    } else {
      PathInv(capacity, path, i - 1);
      assert Next(capacity, path[i - 1], path[i - 1 + 1]);
      var step :| NextStep(capacity, path[i - 1], step, path[i]);
      StepInv(capacity, path[i - 1], step, path[i]);
    }
  }

  /** The table still holds exactly `r` for the task, or no longer holds it. */
  predicate KeepsOrDrops(s: State, id: Id, r: Record) {
    id < s.counter && (id in s.results ==> s.results[id] == r)
  }

  lemma KeepsOrDropsStep(capacity: nat, s: State, step: Step, t: State, id: Id, r: Record)
    requires Inv(s) && NextStep(capacity, s, step, t) && Final(r) && KeepsOrDrops(s, id, r)
    ensures KeepsOrDrops(t, id, r)
  {
    if id in s.results {
      FinalStep(capacity, s, step, t, id);
    }
  }

  /** A completed or failed record never changes; clean-up may drop it and it never comes back. */
  lemma {:induction false} FinalForever(capacity: nat, path: seq<State>, j: nat, id: Id)
    requires IsPath(capacity, path) && Inv(path[0]) && j < |path|
    requires id in path[0].results && Final(path[0].results[id])
    ensures KeepsOrDrops(path[j], id, path[0].results[id])
  {
    if j == 0 {
    } else {
      FinalForever(capacity, path, j - 1, id);
      PathInv(capacity, path, j - 1);
      assert Next(capacity, path[j - 1], path[j - 1 + 1]);
      var step :| NextStep(capacity, path[j - 1], step, path[j]);
      KeepsOrDropsStep(capacity, path[j - 1], step, path[j], id, path[0].results[id]);
    }
  }

  // ----- Cancellation -----

  function Unchecked(id: Id): Worker -> int {
    (w: Worker) => if w.Received? && w.id == id then 1 else 0
  }

  function Passed(id: Id): Worker -> int {
    (w: Worker) => if (w.Checked? || w.Started? || w.Executed?) && w.id == id then 1 else 0
  }

  lemma {:induction false} HoldsSplit(workers: seq<Worker>, id: Id)
    ensures Sum(Holds(id), workers) == Sum(Unchecked(id), workers) + Sum(Passed(id), workers)
    ensures 0 <= Sum(Unchecked(id), workers) && 0 <= Sum(Ran(id), workers) <= Sum(Passed(id), workers)
    decreases |workers|
  {
    if workers == [] {
    } else {
      HoldsSplit(workers[1..], id);
    }
  }

  predicate IsCancelled(s: State, id: Id) {
    id in s.results && s.results[id].status == Cancelled
  }

  /** Cancelled, and its worker has not looked at its status yet; or dropped already. */
  predicate CancelledInTime(s: State, id: Id) {
    || id in s.skipped || id in s.refused
    || (IsCancelled(s, id) && Bit(id in s.preSend) + Count(s.queue, id) + Sum(Unchecked(id), s.workers) == 1)
  }

  lemma CancelledInTimeNotRun(s: State, id: Id)
    requires Inv(s) && CancelledInTime(s, id)
    ensures Sum(Passed(id), s.workers) == 0 && id !in s.finished && id !in s.log
  {
    assert Places(s, id) == Bit(id < s.counter);
    assert Count(s.log, id) == Sum(Ran(id), s.workers) + Bit(id in s.finished);
    HoldsSplit(s.workers, id);
    CountPositive(s.log, id);
  }

  lemma CancelledInTimeWorker(capacity: nat, s: State, step: Step, t: State, id: Id)
    requires Inv(s) && CancelledInTime(s, id) && NextStep(capacity, s, step, t) && MovesWorker(step)
    ensures CancelledInTime(t, id)
  {
    if step.Start? || step.Publish? {
      CancelledInTimeWrite(capacity, s, step, t, id);
    } else {
      SumUpdate(Unchecked(id), s.workers, step.w, t.workers[step.w]);
    }
  }

  /** A worker that writes the table holds another task. */
  lemma CancelledInTimeWrite(capacity: nat, s: State, step: Step, t: State, id: Id)
    requires Inv(s) && CancelledInTime(s, id) && NextStep(capacity, s, step, t) && (step.Start? || step.Publish?)
    ensures CancelledInTime(t, id)
  {
    CancelledInTimeNotRun(s, id);
    SumUpdate(Unchecked(id), s.workers, step.w, t.workers[step.w]);
    SumAtLeast(Passed(id), s.workers, step.w);
  }

  lemma CancelledInTimeOther(capacity: nat, s: State, step: Step, t: State, id: Id)
    requires Inv(s) && CancelledInTime(s, id) && NextStep(capacity, s, step, t) && !MovesWorker(step)
    ensures CancelledInTime(t, id)
  {
    assert t.workers == s.workers;
    if step.Send? {
      CountAppend(s.queue, step.id, id);
    }
  }

  /** A task cancelled before its worker's check never runs, whatever happens next. */
  lemma {:induction false} CancelledInTimeNeverRuns(capacity: nat, path: seq<State>, j: nat, id: Id)
    requires IsPath(capacity, path) && Inv(path[0]) && CancelledInTime(path[0], id) && j < |path|
    ensures CancelledInTime(path[j], id) && id !in path[j].log
  {
    PathInv(capacity, path, j);
    if j == 0 {
    } else {
      CancelledInTimeNeverRuns(capacity, path, j - 1, id);
      PathInv(capacity, path, j - 1);
      assert Next(capacity, path[j - 1], path[j - 1 + 1]);
      var step :| NextStep(capacity, path[j - 1], step, path[j]);
      if MovesWorker(step) {
        CancelledInTimeWorker(capacity, path[j - 1], step, path[j], id);
      } else {
        CancelledInTimeOther(capacity, path[j - 1], step, path[j], id);
      }
    }
    CancelledInTimeNotRun(path[j], id);
  }

  predicate HeldChecked(s: State, id: Id) {
    exists w :: 0 <= w < |s.workers| && s.workers[w] == Checked(id)
  }

  ghost predicate CanRun(capacity: nat, s: State, id: Id) {
    exists path: seq<State> :: IsPath(capacity, path) && path[0] == s && id in path[|path| - 1].log
  }

  /** A cancelled task can still run exactly when its worker had already passed the check. */
  lemma CancelledRunsIff(capacity: nat, s: State, id: Id)
    requires Inv(s) && IsCancelled(s, id)
    ensures CanRun(capacity, s, id) <==> HeldChecked(s, id)
  {
    if HeldChecked(s, id) {
      var w :| 0 <= w < |s.workers| && s.workers[w] == Checked(id);
      var s1 := s.(workers := s.workers[w := Started(id)], results := StartRecord(s.results, id, 0.0));
      var s2 := s1.(workers := s1.workers[w := Executed(id, Success(""))], log := s1.log + [id]);
      assert NextStep(capacity, s, Start(w, 0.0), s1);
      assert NextStep(capacity, s1, Run(w, Success("")), s2);
      var path := [s, s1, s2];
      assert IsPath(capacity, path) && path[0] == s && id in path[|path| - 1].log;
    } else {
      CancelledUnlessChecked(s, id);
      forall path: seq<State> | IsPath(capacity, path) && path[0] == s
        ensures id !in path[|path| - 1].log
      {
        CancelledInTimeNeverRuns(capacity, path, |path| - 1, id);
      }
    }
  }

  lemma CancelledUnlessChecked(s: State, id: Id)
    requires Inv(s) && IsCancelled(s, id) && !HeldChecked(s, id)
    ensures CancelledInTime(s, id)
  {
    assert Places(s, id) == Bit(id < s.counter);
    HoldsSplit(s.workers, id);
    SumUniform(Passed(id), s.workers, 0);
  }

  ghost predicate Reachable(capacity: nat, s: State) {
    exists trace: seq<State> :: IsRun(capacity, trace) && trace[|trace| - 1] == s
  }

  lemma ReachStep(capacity: nat, s: State, step: Step, t: State)
    requires Reachable(capacity, s) && NextStep(capacity, s, step, t)
    ensures Reachable(capacity, t)
  {
    var trace: seq<State> :| IsRun(capacity, trace) && trace[|trace| - 1] == s;
    var longer := trace + [t];
    forall i | 0 <= i < |longer| - 1
      ensures Next(capacity, longer[i], longer[i + 1])
    {
      if i < |trace| - 1 {
        assert Next(capacity, trace[i], trace[i + 1]);
      }
    }
    assert longer[0] == trace[0];
    assert IsRun(capacity, longer) && longer[|longer| - 1] == t;
  }

  /** One task submitted; the first worker is as given and the others are idle. */
  ghost function OneTask(workers: nat, r: Record, waiting: bool, queue: seq<Id>, first: Worker): State
    requires workers > 0
  {
    State(true, 1, map[0 := r], if waiting then {0} else {}, queue, seq(workers, i => Idle)[0 := first], {}, {}, {}, [])
  }

  lemma ReachPolling(workers: nat, capacity: nat)
    requires workers > 0
    ensures Reachable(capacity, OneTask(workers, NEW_RECORD, true, [], Polling))
  {
    var s0 := State(true, 0, map[], {}, [], seq(workers, i => Idle), {}, {}, {}, []);
    var s1 := OneTask(workers, NEW_RECORD, true, [], Idle);
    var s2 := OneTask(workers, NEW_RECORD, true, [], Polling);
    assert IsRun(capacity, [s0]) && [s0][0] == s0;
    assert s1.workers == s0.workers;
    ReachStep(capacity, s0, Submit, s1);
    ReachStep(capacity, s1, Poll(0), s2);
  }

  lemma ReachReceived(workers: nat, capacity: nat)
    requires workers > 0
    ensures Reachable(capacity, OneTask(workers, NEW_RECORD, false, [], Received(0)))
  {
    ReachPolling(workers, capacity);
    var s2 := OneTask(workers, NEW_RECORD, true, [], Polling);
    var t := OneTask(workers, NEW_RECORD, false, [], Received(0));
    if capacity == 0 {
      ReachStep(capacity, s2, Handoff(0, 0), t);
    } else {
      var q := OneTask(workers, NEW_RECORD, false, [0], Polling);
      ReachStep(capacity, s2, Send(0), q);
      ReachStep(capacity, q, Take(0), t);
    }
  }

  /** Cancelling during a task's delay is too late: every pool has such a run. */
  lemma CancelCanBeTooLate(workers: nat, capacity: nat)
    requires workers > 0
    ensures exists s :: Reachable(capacity, s) && IsCancelled(s, 0) && CanRun(capacity, s, 0)
  {
    var s3 := OneTask(workers, NEW_RECORD, false, [], Received(0));
    var s4 := OneTask(workers, NEW_RECORD, false, [], Checked(0));
    var s5 := OneTask(workers, NEW_RECORD.(status := Cancelled), false, [], Checked(0));
    ReachReceived(workers, capacity);
    ReachStep(capacity, s3, Check(0), s4);
    ReachStep(capacity, s4, Cancel(0), s5);
    var trace: seq<State> :| IsRun(capacity, trace) && trace[|trace| - 1] == s5;
    RunInv(capacity, trace, |trace| - 1);
    assert s5.workers[0] == Checked(0);
    CancelledRunsIff(capacity, s5, 0);
  }
}
