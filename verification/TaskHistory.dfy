/** A task's record is told by the steps of the run: when its worker started it, what its handler did, when that was
    published, and whether it was cancelled or cleaned up. */
module TaskHistory {
  import opened Wrappers
  import opened Tasks

  // ----- The steps that concern a task -----

  predicate Starts(s: State, step: Step, id: Id) {
    step.Start? && IsWorker(s, step.w) && s.workers[step.w] == Checked(id)
  }

  predicate Runs(s: State, step: Step, id: Id) {
    step.Run? && IsWorker(s, step.w) && s.workers[step.w] == Started(id)
  }

  predicate Publishes(s: State, step: Step, id: Id) {
    step.Publish? && IsWorker(s, step.w) && s.workers[step.w].Executed? && s.workers[step.w].id == id
  }

  predicate Cancels(s: State, step: Step, id: Id) { step == Cancel(id) && id < s.counter }

  // ----- What they tell -----

  datatype Story = Story(
    cancelled: bool, startedAt: Option<real>, outcome: Option<Outcome>, publishedAt: Option<real>, dropped: bool)

  const UNTOLD := Story(false, None, None, None, false)

  function Tell(y: Story, s: State, step: Step, id: Id): Story {
    if Starts(s, step, id) then y.(startedAt := Some(step.now))
    else if Runs(s, step, id) then y.(outcome := Some(step.outcome))
    else if Publishes(s, step, id) then y.(publishedAt := Some(step.now))
    else if Cancels(s, step, id) && y.startedAt.None? then y.(cancelled := true)
    else if step.Cleanup? && y.publishedAt.Some? && y.publishedAt.value <= step.threshold then y.(dropped := true)
    else y
  }

  /** A run with its steps. */
  ghost predicate StepAt(capacity: nat, trace: seq<State>, steps: seq<Step>, i: nat)
    requires |trace| == |steps| + 1 && i < |steps|
  {
    NextStep(capacity, trace[i], steps[i], trace[i + 1])
  }

  ghost predicate Labelled(capacity: nat, trace: seq<State>, steps: seq<Step>) {
    && |trace| == |steps| + 1 && Init(trace[0])
    && forall i :: 0 <= i < |steps| ==> StepAt(capacity, trace, steps, i)
  }

  ghost function StoryOf(trace: seq<State>, steps: seq<Step>, n: nat, id: Id): Story
    requires |trace| == |steps| + 1 && n <= |steps|
  {
    if n == 0 then UNTOLD else Tell(StoryOf(trace, steps, n - 1, id), trace[n - 1], steps[n - 1], id)
  }

  /** The record such a story leaves. */
  function Told(y: Story): Record {
    var published := y.publishedAt.Some? && y.outcome.Some?;
    Record(
      if published then (if y.outcome.value.Success? then Completed else Failed)
      else if y.startedAt.Some? then Running else if y.cancelled then Cancelled else Pending,
      if published && y.outcome.value.Success? then Some(y.outcome.value.result) else None,
      if published && y.outcome.value.Failure? then Some(y.outcome.value.error) else None,
      y.startedAt, y.publishedAt)
  }

  // ----- They agree -----

  predicate NotStarted(y: Story) { y.startedAt.None? && y.outcome.None? && y.publishedAt.None? }

  ghost predicate WorkerTells(w: Worker, id: Id, y: Story) {
    match w
    case Received(i) => i == id ==> NotStarted(y)
    case Checked(i) => i == id ==> NotStarted(y)
    case Started(i) => i == id ==> y.startedAt.Some? && y.outcome.None? && y.publishedAt.None?
    case Executed(i, o) => i == id ==> y.startedAt.Some? && y.outcome == Some(o) && y.publishedAt.None?
    case _ => true
  }

  ghost predicate PlaceTells(s: State, id: Id, y: Story) {
    && (forall w :: 0 <= w < |s.workers| ==> WorkerTells(s.workers[w], id, y))
    && (id in s.preSend || id in s.queue || id >= s.counter ==> NotStarted(y))
    && (id in s.finished <==> y.publishedAt.Some?)
    && (y.publishedAt.Some? ==> y.startedAt.Some? && y.outcome.Some?)
  }

  ghost predicate RecordTells(s: State, id: Id, y: Story) {
    && (id in s.results <==> id < s.counter && !y.dropped)
    && (id in s.results ==> s.results[id] == Told(y))
    && (y.dropped ==> y.publishedAt.Some?)
    && (id >= s.counter ==> y == UNTOLD)
  }

  /** A worker moves the task it holds. */
  lemma HolderPlace(capacity: nat, s: State, step: Step, t: State, id: Id, y: Story)
    requires Inv(s) && NextStep(capacity, s, step, t) && PlaceTells(s, id, y)
    requires MovesWorker(step) && Holds(id)(s.workers[step.w]) == 1
    ensures PlaceTells(t, id, Tell(y, s, step, id))
  {
    HeldIsNotDone(s, step.w, id);
    assert WorkerTells(s.workers[step.w], id, y);
    forall w | 0 <= w < |s.workers| && w != step.w
      ensures Holds(id)(s.workers[w]) == 0
    {
      OneHolder(s, step.w, w, id);
    }
  }

  /** A worker moves another task. */
  lemma OtherHolderPlace(capacity: nat, s: State, step: Step, t: State, id: Id, y: Story)
    requires Inv(s) && NextStep(capacity, s, step, t) && PlaceTells(s, id, y)
    requires MovesWorker(step) && Holds(id)(s.workers[step.w]) == 0
    ensures PlaceTells(t, id, Tell(y, s, step, id))
  {
    assert Tell(y, s, step, id) == y;
    assert t.workers == s.workers[step.w := t.workers[step.w]];
    assert WorkerTells(t.workers[step.w], id, y);
  }

  lemma CalledPlace(capacity: nat, s: State, step: Step, t: State, id: Id, y: Story)
    requires NextStep(capacity, s, step, t) && PlaceTells(s, id, y) && !MovesWorker(step)
    ensures PlaceTells(t, id, Tell(y, s, step, id))
  {
    assert t.workers == s.workers && t.finished == s.finished;
  }

  lemma PlaceStep(capacity: nat, s: State, step: Step, t: State, id: Id, y: Story)
    requires Inv(s) && NextStep(capacity, s, step, t) && PlaceTells(s, id, y)
    ensures PlaceTells(t, id, Tell(y, s, step, id))
  {
    if MovesWorker(step) && Holds(id)(s.workers[step.w]) == 1 {
      HolderPlace(capacity, s, step, t, id, y);
    } else if MovesWorker(step) {
      OtherHolderPlace(capacity, s, step, t, id, y);
    } else {
      CalledPlace(capacity, s, step, t, id, y);
    }
  }

  /** The worker that holds the task writes its record. */
  lemma WrittenRecord(capacity: nat, s: State, step: Step, t: State, id: Id, y: Story)
    requires Inv(s) && NextStep(capacity, s, step, t) && PlaceTells(s, id, y) && RecordTells(s, id, y)
    requires Starts(s, step, id) || Publishes(s, step, id)
    ensures RecordTells(t, id, Tell(y, s, step, id))
  {
    HeldIsNotDone(s, step.w, id);
    assert WorkerTells(s.workers[step.w], id, y);
  }

  lemma KeptRecord(capacity: nat, s: State, step: Step, t: State, id: Id, y: Story)
    requires NextStep(capacity, s, step, t) && RecordTells(s, id, y) && MovesWorker(step)
    requires !Starts(s, step, id) && !Publishes(s, step, id) && !Runs(s, step, id)
    ensures RecordTells(t, id, Tell(y, s, step, id))
  {
  }

  lemma RunRecord(capacity: nat, s: State, step: Step, t: State, id: Id, y: Story)
    requires Inv(s) && NextStep(capacity, s, step, t) && PlaceTells(s, id, y) && RecordTells(s, id, y)
    requires Runs(s, step, id)
    ensures RecordTells(t, id, Tell(y, s, step, id))
  {
    HeldIsNotDone(s, step.w, id);
    assert WorkerTells(s.workers[step.w], id, y);
  }

  lemma CalledRecord(capacity: nat, s: State, step: Step, t: State, id: Id, y: Story)
    requires NextStep(capacity, s, step, t) && RecordTells(s, id, y) && !MovesWorker(step)
    requires y.publishedAt.Some? ==> y.startedAt.Some? && y.outcome.Some?
    ensures RecordTells(t, id, Tell(y, s, step, id))
  {
  }

  lemma RecordStep(capacity: nat, s: State, step: Step, t: State, id: Id, y: Story)
    requires Inv(s) && NextStep(capacity, s, step, t) && PlaceTells(s, id, y) && RecordTells(s, id, y)
    ensures RecordTells(t, id, Tell(y, s, step, id))
  {
    if Starts(s, step, id) || Publishes(s, step, id) {
      WrittenRecord(capacity, s, step, t, id, y);
    } else if Runs(s, step, id) {
      RunRecord(capacity, s, step, t, id, y);
    } else if MovesWorker(step) {
      KeptRecord(capacity, s, step, t, id, y);
    } else {
      CalledRecord(capacity, s, step, t, id, y);
    }
  }

  lemma {:induction false} RunTells(capacity: nat, trace: seq<State>, steps: seq<Step>, n: nat, id: Id)
    requires Labelled(capacity, trace, steps) && n <= |steps|
    ensures Inv(trace[n])
    ensures var y := StoryOf(trace, steps, n, id);
            PlaceTells(trace[n], id, y) && RecordTells(trace[n], id, y)
  {
    if n == 0 {
      InitInv(trace[0]);
    } else {
      RunTells(capacity, trace, steps, n - 1, id);
      assert StepAt(capacity, trace, steps, n - 1);
      var y := StoryOf(trace, steps, n - 1, id);
      StepInv(capacity, trace[n - 1], steps[n - 1], trace[n]);
      PlaceStep(capacity, trace[n - 1], steps[n - 1], trace[n], id, y);
      RecordStep(capacity, trace[n - 1], steps[n - 1], trace[n], id, y);
    }
  }

  /** In every state of every run, a submitted task has a record unless it was cleaned up after it was published,
      and the record is what the steps tell: the times of its start and publication, and what its handler did. */
  lemma RecordIsStory(capacity: nat, trace: seq<State>, steps: seq<Step>, n: nat, id: Id)
    requires Labelled(capacity, trace, steps) && n <= |steps|
    ensures var y := StoryOf(trace, steps, n, id);
            && (id in trace[n].results <==> id < trace[n].counter && !y.dropped)
            && (id in trace[n].results ==> trace[n].results[id] == Told(y))
  {
    RunTells(capacity, trace, steps, n, id);
  }

  // ----- The same, in terms of single steps -----

  ghost predicate RunAt(trace: seq<State>, steps: seq<Step>, i: nat, id: Id) {
    |trace| == |steps| + 1 && i < |steps| && Runs(trace[i], steps[i], id)
  }

  ghost predicate PublishedAt(trace: seq<State>, steps: seq<Step>, i: nat, id: Id) {
    |trace| == |steps| + 1 && i < |steps| && Publishes(trace[i], steps[i], id)
  }

  ghost predicate StartedAt(trace: seq<State>, steps: seq<Step>, i: nat, id: Id) {
    |trace| == |steps| + 1 && i < |steps| && Starts(trace[i], steps[i], id)
  }

  /** The story so far holds what each start, handler call and publication said, so there was at most one of each. */
  ghost predicate SaysSo(trace: seq<State>, steps: seq<Step>, n: nat, id: Id, y: Story) {
    && (forall i :: 0 <= i < n && RunAt(trace, steps, i, id) ==> y.outcome == Some(steps[i].outcome))
    && (forall i :: 0 <= i < n && PublishedAt(trace, steps, i, id) ==> y.publishedAt == Some(steps[i].now))
    && (forall i :: 0 <= i < n && StartedAt(trace, steps, i, id) ==> y.startedAt == Some(steps[i].now))
  }

  /** And nothing else. */
  ghost predicate SaidBySome(trace: seq<State>, steps: seq<Step>, n: nat, id: Id, y: Story) {
    && (y.outcome.Some? ==> exists i :: 0 <= i < n && RunAt(trace, steps, i, id))
    && (y.publishedAt.Some? ==> exists i :: 0 <= i < n && PublishedAt(trace, steps, i, id))
    && (y.startedAt.Some? ==> exists i :: 0 <= i < n && StartedAt(trace, steps, i, id))
  }

  /** A task is not started, run or published twice. */
  lemma NotTwice(s: State, step: Step, id: Id, y: Story)
    requires PlaceTells(s, id, y)
    ensures Starts(s, step, id) ==> NotStarted(y)
    ensures Runs(s, step, id) ==> y.startedAt.Some? && y.outcome.None? && y.publishedAt.None?
    ensures Publishes(s, step, id) ==> y.startedAt.Some? && y.outcome.Some? && y.publishedAt.None?
  {
    if MovesWorker(step) && IsWorker(s, step.w) {
      assert WorkerTells(s.workers[step.w], id, y);
    }
  }

  lemma SaysSoStep(trace: seq<State>, steps: seq<Step>, n: nat, id: Id, y: Story)
    requires |trace| == |steps| + 1 && n < |steps| && PlaceTells(trace[n], id, y)
    requires SaysSo(trace, steps, n, id, y) && SaidBySome(trace, steps, n, id, y)
    ensures SaysSo(trace, steps, n + 1, id, Tell(y, trace[n], steps[n], id))
  {
    NotTwice(trace[n], steps[n], id, y);
  }

  lemma SaidBySomeStep(trace: seq<State>, steps: seq<Step>, n: nat, id: Id, y: Story)
    requires |trace| == |steps| + 1 && n < |steps| && SaidBySome(trace, steps, n, id, y)
    ensures SaidBySome(trace, steps, n + 1, id, Tell(y, trace[n], steps[n], id))
  {
    assert RunAt(trace, steps, n, id) == Runs(trace[n], steps[n], id);
    assert PublishedAt(trace, steps, n, id) == Publishes(trace[n], steps[n], id);
    assert StartedAt(trace, steps, n, id) == Starts(trace[n], steps[n], id);
  }

  lemma {:induction false} StorySteps(capacity: nat, trace: seq<State>, steps: seq<Step>, n: nat, id: Id)
    requires Labelled(capacity, trace, steps) && n <= |steps|
    ensures SaysSo(trace, steps, n, id, StoryOf(trace, steps, n, id))
    ensures SaidBySome(trace, steps, n, id, StoryOf(trace, steps, n, id))
  {
    if n == 0 {
    } else {
      var y := StoryOf(trace, steps, n - 1, id);
      StorySteps(capacity, trace, steps, n - 1, id);
      RunTells(capacity, trace, steps, n - 1, id);
      SaysSoStep(trace, steps, n - 1, id, y);
      SaidBySomeStep(trace, steps, n - 1, id, y);
    }
  }

  ghost predicate SomePublication(trace: seq<State>, steps: seq<Step>, n: nat, id: Id) {
    exists i :: 0 <= i < n && PublishedAt(trace, steps, i, id)
  }

  /** The steps `k`, `i` and `j` started the task, ran its handler and published what that did. */
  ghost predicate Finished(trace: seq<State>, steps: seq<Step>, n: nat, id: Id, k: nat, i: nat, j: nat) {
    && k < n && i < n && j < n
    && StartedAt(trace, steps, k, id) && RunAt(trace, steps, i, id) && PublishedAt(trace, steps, j, id)
  }

  /** A record says Completed with a result exactly if the handler returned that result and this was published, and
      Failed with an error exactly if it raised that error; the other field is empty, and the times are those of the
      steps. */
  lemma FinalIff(capacity: nat, trace: seq<State>, steps: seq<Step>, n: nat, id: Id)
    requires Labelled(capacity, trace, steps) && n <= |steps| && id in trace[n].results
    ensures Final(trace[n].results[id]) <==> SomePublication(trace, steps, n, id)
    ensures SomePublication(trace, steps, n, id) ==>
        exists k: nat, i: nat, j: nat :: Finished(trace, steps, n, id, k, i, j)
    ensures forall k: nat, i: nat, j: nat :: Finished(trace, steps, n, id, k, i, j) ==>
              trace[n].results[id] ==
                match steps[i].outcome
                case Success(r) => Record(Completed, Some(r), None, Some(steps[k].now), Some(steps[j].now))
                case Failure(e) => Record(Failed, None, Some(e), Some(steps[k].now), Some(steps[j].now))
  {
    RunTells(capacity, trace, steps, n, id);
    StorySteps(capacity, trace, steps, n, id);
    if SomePublication(trace, steps, n, id) {
      var j :| 0 <= j < n && PublishedAt(trace, steps, j, id);
      var i :| 0 <= i < n && RunAt(trace, steps, i, id);
      var k :| 0 <= k < n && StartedAt(trace, steps, k, id);
      assert Finished(trace, steps, n, id, k, i, j);
    }
    var y := StoryOf(trace, steps, n, id);
    forall k: nat, i: nat, j: nat | Finished(trace, steps, n, id, k, i, j)
      ensures y.outcome == Some(steps[i].outcome) && y.startedAt == Some(steps[k].now) &&
          y.publishedAt == Some(steps[j].now)
    {
    }
  }

  // ----- Dropped tasks, and the order of the queue -----

  /** A worker drops a task only if it was cancelled. */
  lemma {:induction false} SkippedWasCancelled(capacity: nat, trace: seq<State>, steps: seq<Step>, n: nat, id: Id)
    requires Labelled(capacity, trace, steps) && n <= |steps| && id in trace[n].skipped
    ensures StoryOf(trace, steps, n, id).cancelled
  {
    if n > 0 {
      var s, step := trace[n - 1], steps[n - 1];
      assert StepAt(capacity, trace, steps, n - 1);
      if id in s.skipped {
        SkippedWasCancelled(capacity, trace, steps, n - 1, id);
      } else {
        RunTells(capacity, trace, steps, n - 1, id);
        SkippedNow(capacity, s, step, trace[n], id, StoryOf(trace, steps, n - 1, id));
      }
    }
  }

  lemma SkippedNow(capacity: nat, s: State, step: Step, t: State, id: Id, y: Story)
    requires NextStep(capacity, s, step, t) && RecordTells(s, id, y) && id !in s.skipped && id in t.skipped
    ensures y.cancelled && Tell(y, s, step, id).cancelled
  {
  }

  /** The tasks put on the queue, in order. */
  ghost function SentSoFar(steps: seq<Step>, n: nat): seq<Id>
    requires n <= |steps|
  {
    if n == 0 then [] else SentSoFar(steps, n - 1) + if steps[n - 1].Send? then [steps[n - 1].id] else []
  }

  /** The tasks workers received from it, in order. */
  ghost function TakenSoFar(trace: seq<State>, steps: seq<Step>, n: nat): seq<Id>
    requires |trace| == |steps| + 1 && n <= |steps|
  {
    if n == 0 then []
    else
      TakenSoFar(trace, steps, n - 1) +
      (if steps[n - 1].Take? && IsWorker(trace[n], steps[n - 1].w) && trace[n].workers[steps[n - 1].w].Received?
       then [trace[n].workers[steps[n - 1].w].id] else [])
  }

  /** First in, first out. */
  lemma {:induction false} QueueIsFifo(capacity: nat, trace: seq<State>, steps: seq<Step>, n: nat)
    requires Labelled(capacity, trace, steps) && n <= |steps|
    ensures SentSoFar(steps, n) == TakenSoFar(trace, steps, n) + trace[n].queue
  {
    if n == 0 {
    } else {
      QueueIsFifo(capacity, trace, steps, n - 1);
      assert StepAt(capacity, trace, steps, n - 1);
      FifoStep(capacity, trace[n - 1], steps[n - 1], trace[n], SentSoFar(steps, n - 1),
          TakenSoFar(trace, steps, n - 1));
    }
  }

  lemma FifoStep(capacity: nat, s: State, step: Step, t: State, sent: seq<Id>, taken: seq<Id>)
    requires NextStep(capacity, s, step, t) && sent == taken + s.queue
    ensures sent + (if step.Send? then [step.id] else [])
         == taken + (if step.Take? then [t.workers[step.w].id] else []) + t.queue
  {
    if step.Take? {
      assert s.queue == [s.queue[0]] + s.queue[1..];
    }
  }
}
