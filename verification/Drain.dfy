/** Graceful drain: request admission, in-flight counting and the start of a drain, as
    interleaved atomic steps on a shared flag and a shared 64-bit counter. */
module Drain {
  import opened Counting

  const WORD: nat := 0x1_0000_0000_0000_0000

  /** How far a request has come in `handle_request` and `on_request_complete`. */
  datatype Phase =
    | Arrived
    | Rejected                 // saw the drain flag: 503
    | Admitted                 // did not see it, has not counted itself yet
    | Running                  // counted in
    | Leaving(remaining: nat)  // counted out; still has to look at the flag
    | Finished

  datatype State = State(draining: bool, inFlight: nat, requests: seq<Phase>, notified: nat)

  datatype Step =
    | Check(r: nat)      // is_draining
    | Enter(r: nat)      // increment_in_flight
    | Leave(r: nat)      // decrement_in_flight
    | Signal(r: nat)     // notify_waiters, if draining and nothing remains
    | StartDrain

  predicate In(s: State, r: nat) { r < |s.requests| }

  function Put(s: State, r: nat, p: Phase): State
    requires In(s, r)
  {
    s.(requests := s.requests[r := p])
  }

  ghost predicate NextStep(s: State, step: Step, t: State) {
    match step
    case Check(r) =>
      In(s, r) && s.requests[r] == Arrived && t == Put(s, r, if s.draining then Rejected else Admitted)
    case Enter(r) =>
      In(s, r) && s.requests[r] == Admitted && t == Put(s, r, Running).(inFlight := (s.inFlight + 1) % WORD)
    case Leave(r) =>
      && In(s, r) && s.requests[r] == Running
      && t == Put(s, r, Leaving(if s.inFlight == 0 then 0 else s.inFlight - 1))
              .(inFlight := if s.inFlight == 0 then WORD - 1 else s.inFlight - 1)
    case Signal(r) =>
      && In(s, r) && s.requests[r].Leaving?
      && t == Put(s, r, Finished).(notified := s.notified + if s.draining && s.requests[r].remaining == 0 then 1 else 0)
    case StartDrain => t == s.(draining := true)
  }

  ghost predicate Init(s: State) {
    && !s.draining && s.inFlight == 0 && s.notified == 0 && |s.requests| < WORD
    && forall r :: 0 <= r < |s.requests| ==> s.requests[r] == Arrived
  }

  function RunningWeight(p: Phase): int { if p == Running then 1 else 0 }

  /** The requests between counting in and counting out. */
  function RunningCount(s: State): int { Sum(RunningWeight, s.requests) }

  /** The requests that passed the check and have not counted out. */
  ghost function Unfinished(s: State): set<nat> {
    set r | 0 <= r < |s.requests| && (s.requests[r] == Admitted || s.requests[r] == Running)
  }

  /** The counter is exactly the number of running requests. */
  ghost predicate Inv(s: State) {
    |s.requests| < WORD && s.inFlight == RunningCount(s) && s.inFlight <= |s.requests|
  }

  lemma {:induction false} WeightBound(ps: seq<Phase>)
    ensures 0 <= Sum(RunningWeight, ps) <= |ps|
    decreases |ps|
  {
    if ps == [] {
    } else {
      WeightBound(ps[1..]);
    }
  }

  lemma InitInv(s: State)
    requires Init(s)
    ensures Inv(s)
  {
    SumUniform(RunningWeight, s.requests, 0);
  }

  lemma StepInv(s: State, step: Step, t: State)
    requires Inv(s) && NextStep(s, step, t)
    ensures Inv(t)
    ensures step.Leave? ==> s.inFlight > 0
  {
    WeightBound(t.requests);
    if !step.StartDrain? {
      SumUpdate(RunningWeight, s.requests, step.r, t.requests[step.r]);
      SumAtLeast(RunningWeight, s.requests, step.r);
    }
  }

  ghost predicate Next(s: State, t: State) { exists step :: NextStep(s, step, t) }

  ghost predicate IsPath(path: seq<State>) {
    path != [] && forall i :: 0 <= i < |path| - 1 ==> Next(path[i], path[i + 1])
  }

  lemma {:induction false} PathInv(path: seq<State>, i: nat)
    requires IsPath(path) && Inv(path[0]) && i < |path|
    ensures Inv(path[i])
  {
    if i == 0 {
    } else {
      PathInv(path, i - 1);
      assert Next(path[i - 1], path[i - 1 + 1]);
      var step :| NextStep(path[i - 1], step, path[i]);
      StepInv(path[i - 1], step, path[i]);
    }
  }

  /** In every interleaving the counter equals the running requests, and counting out never underflows. */
  lemma CounterIsExact(path: seq<State>, i: nat, r: nat, t: State)
    requires IsPath(path) && Init(path[0]) && i < |path|
    ensures path[i].inFlight == RunningCount(path[i])
    ensures NextStep(path[i], Leave(r), t) ==> path[i].inFlight > 0 && t.inFlight == path[i].inFlight - 1
  {
    InitInv(path[0]);
    PathInv(path, i);
    if NextStep(path[i], Leave(r), t) {
      StepInv(path[i], Leave(r), t);
    }
  }

  // ----- After the drain has started -----

  lemma DrainStep(s: State, step: Step, t: State)
    requires s.draining && NextStep(s, step, t)
    ensures t.draining && Unfinished(t) <= Unfinished(s)
  {
  }

  /** After the drain has started, no request joins the unfinished ones. */
  lemma {:induction false} UnfinishedOnlyShrinks(path: seq<State>, i: nat)
    requires IsPath(path) && path[0].draining && i < |path|
    ensures path[i].draining && Unfinished(path[i]) <= Unfinished(path[0])
  {
    if i == 0 {
    } else {
      UnfinishedOnlyShrinks(path, i - 1);
      assert Next(path[i - 1], path[i - 1 + 1]);
      var step :| NextStep(path[i - 1], step, path[i]);
      DrainStep(path[i - 1], step, path[i]);
    }
  }

  ghost predicate StaysZero(s: State) {
    forall path: seq<State> :: IsPath(path) && path[0] == s ==> path[|path| - 1].inFlight == 0
  }

  lemma NobodyRuns(s: State)
    requires Inv(s)
    ensures s.inFlight == 0 <==> forall r :: 0 <= r < |s.requests| ==> s.requests[r] != Running
  {
    if forall r :: 0 <= r < |s.requests| ==> s.requests[r] != Running {
      SumUniform(RunningWeight, s.requests, 0);
    } else {
      var r :| 0 <= r < |s.requests| && s.requests[r] == Running;
      SumAtLeast(RunningWeight, s.requests, r);
    }
  }

  /** Once every admitted request is finished, the counter stays zero; a zero counter alone does
      not promise that, because a request may have passed the check and not counted itself yet. */
  lemma StaysZeroIff(s: State)
    requires Inv(s) && s.draining
    ensures StaysZero(s) <==> Unfinished(s) == {}
  {
    if Unfinished(s) == {} {
      forall path: seq<State> | IsPath(path) && path[0] == s
        ensures path[|path| - 1].inFlight == 0
      {
        var last := path[|path| - 1];
        UnfinishedOnlyShrinks(path, |path| - 1);
        PathInv(path, |path| - 1);
        forall r | 0 <= r < |last.requests|
          ensures last.requests[r] != Running
        {
          assert r !in Unfinished(last);
        }
        NobodyRuns(last);
      }
    } else {
      var r :| r in Unfinished(s);
      NobodyRuns(s);
      if s.inFlight == 0 {
        var t := Put(s, r, Running).(inFlight := 1);
        assert NextStep(s, Enter(r), t);
        assert IsPath([s, t]) && [s, t][0] == s && [s, t][|[s, t]| - 1].inFlight == 1;
      } else {
        assert IsPath([s]) && [s][0] == s && [s][|[s]| - 1].inFlight != 0;
      }
    }
  }

  /** The gap is real: the drain has started, the counter is zero, and a request is still about to run. */
  lemma ZeroIsNotDrained()
    ensures exists path: seq<State> :: IsPath(path) && Init(path[0])
                           && path[|path| - 1].draining && path[|path| - 1].inFlight == 0 &&
                                 !StaysZero(path[|path| - 1])
  {
    var s0 := State(false, 0, [Arrived], 0);
    var s1 := s0.(requests := [Admitted]);
    var s2 := s1.(draining := true);
    assert NextStep(s0, Check(0), s1);
    assert NextStep(s1, StartDrain, s2);
    var path := [s0, s1, s2];
    assert IsPath(path);
    InitInv(s0);
    PathInv(path, 2);
    assert 0 in Unfinished(s2);
    StaysZeroIff(s2);
  }

  /** Every count-out to zero that happens during a drain leads to a wake-up: the request still owes
      its look at the flag, the flag stays set, and that look notifies. */
  lemma {:induction false} LastLeaverNotifies(path: seq<State>, i: nat, r: nat)
    requires IsPath(path) && path[0].draining && i < |path| && In(path[0], r) && path[0].requests[r] == Leaving(0)
    ensures In(path[i], r) && (path[i].requests[r] == Leaving(0) || path[i].requests[r] == Finished)
    ensures path[i].requests[r] == Finished ==> path[i].notified > path[0].notified
    ensures path[i].draining && path[i].notified >= path[0].notified
  {
    if i == 0 {
    } else {
      LastLeaverNotifies(path, i - 1, r);
      assert Next(path[i - 1], path[i - 1 + 1]);
      var step :| NextStep(path[i - 1], step, path[i]);
    }
  }

  /** A count-out to zero is exactly one taken with one request running. */
  lemma LeaveToZero(s: State, r: nat, t: State)
    requires Inv(s) && NextStep(s, Leave(r), t)
    ensures t.requests[r] == Leaving(0) <==> t.inFlight == 0
  {
    StepInv(s, Leave(r), t);
  }

  // ----- When it notifies -----

  /** Request `r` counted out to zero, and all that `t` adds is that it has finished. */
  ghost predicate FinishedBy(s: State, t: State, r: nat) {
    In(s, r) && s.requests[r] == Leaving(0) && t.requests == s.requests[r := Finished] && t.inFlight == s.inFlight
  }

  ghost predicate SomeFinished(s: State, t: State) { exists r: nat :: FinishedBy(s, t, r) }

  /** Before the drain starts nobody is notified, and then only by a request that left nobody behind. */
  lemma {:induction false} NoticeOnlyWhenDrained(path: seq<State>, i: nat)
    requires IsPath(path) && Init(path[0]) && i < |path|
    ensures path[i].notified > 0 ==> path[i].draining
    ensures i > 0 && path[i].notified != path[i - 1].notified ==>
              && path[i].notified == path[i - 1].notified + 1 && path[i].draining
              && SomeFinished(path[i - 1], path[i])
  {
    if i == 0 {
    } else {
      NoticeOnlyWhenDrained(path, i - 1);
      assert Next(path[i - 1], path[i - 1 + 1]);
      var step :| NextStep(path[i - 1], step, path[i]);
      if step.Signal? {
        assert path[i].notified != path[i - 1].notified ==> FinishedBy(path[i - 1], path[i], step.r);
      }
    }
  }
}
