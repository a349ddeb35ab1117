/** The circuit breaker: per-route counters and timestamps that stand for a trace. */
module CircuitBreaker {
  import opened Wrappers

  datatype CircuitState = Closed | Open | HalfOpen

  datatype Config = Config(failureThreshold: nat, successThreshold: nat, timeout: real)

  /** The counters of one route. */
  datatype Circuit = Circuit(state: CircuitState, failureCount: nat, successCount: nat, lastFailureAt: Option<real>)

  const NEW_CIRCUIT := Circuit(Closed, 0, 0, None)

  datatype Op = Success | Failure(now: real) | Request(now: real)

  // ----- What the code does to the counters -----

  function RecordSuccess(cfg: Config, c: Circuit): Circuit {
    match c.state
    case HalfOpen =>
      if c.successCount + 1 >= cfg.successThreshold then c.(state := Closed, failureCount := 0, successCount := 0)
      else c.(successCount := c.successCount + 1)
    case Closed => c.(failureCount := 0)
    case Open => c
  }

  function RecordFailure(cfg: Config, c: Circuit, now: real): Circuit {
    match c.state
    case Closed =>
      if c.failureCount + 1 >= cfg.failureThreshold
      then c.(failureCount := c.failureCount + 1, state := Open, lastFailureAt := Some(now))
      else c.(failureCount := c.failureCount + 1)
    case HalfOpen => c.(state := Open, lastFailureAt := Some(now), successCount := 0)
    case Open => c.(lastFailureAt := Some(now))
  }

  /** A request: the new counters, and whether it passes. */
  function Admit(cfg: Config, c: Circuit, now: real): (Circuit, bool) {
    if c.state == Open then
      if c.lastFailureAt.Some? && now - c.lastFailureAt.value >= cfg.timeout
      then (c.(state := HalfOpen, successCount := 0), true)
      else (c, false)
    else (c, true)
  }

  function Apply(cfg: Config, c: Circuit, op: Op): (Circuit, bool) {
    match op
    case Success => (RecordSuccess(cfg, c), true)
    case Failure(now) => (RecordFailure(cfg, c, now), true)
    case Request(now) => Admit(cfg, c, now)
  }

  /** The middleware: one circuit per path, created on demand. */
  class CircuitBreakerMiddleware {
    const config: Config
    const paths: seq<string>   // empty: all paths
    var circuits: map<string, Circuit>

    function Of(path: string): Circuit
      reads this
    {
      if path in circuits then circuits[path] else NEW_CIRCUIT
    }

    constructor (config: Config, paths: seq<string>)
      ensures this.config == config && this.paths == paths && forall p :: Of(p) == NEW_CIRCUIT
    {
      this.config, this.paths, this.circuits := config, paths, map[];
    }

    method OnSuccess(path: string)
      modifies this
      ensures Of(path) == RecordSuccess(config, old(Of(path)))
      ensures forall p :: p != path ==> Of(p) == old(Of(p))
    {
      if path in circuits {
        var cb := circuits[path];
        match cb.state {
          case HalfOpen =>
            var sc := cb.successCount + 1;
            cb := cb.(successCount := sc);
            if sc >= config.successThreshold {
              cb := cb.(state := Closed, failureCount := 0, successCount := 0);
            }
          case Closed => cb := cb.(failureCount := 0);
          case Open =>
        }
        circuits := circuits[path := cb];
      }
    }

    method OnFailure(path: string, now: real)
      modifies this
      ensures Of(path) == RecordFailure(config, old(Of(path)), now)
      ensures forall p :: p != path ==> Of(p) == old(Of(p))
    {
      var cb := Of(path);
      match cb.state {
        case Closed =>
          var fc := cb.failureCount + 1;
          cb := cb.(failureCount := fc);
          if fc >= config.failureThreshold {
            cb := cb.(state := Open, lastFailureAt := Some(now));
          }
        case HalfOpen => cb := cb.(state := Open, lastFailureAt := Some(now), successCount := 0);
        case Open => cb := cb.(lastFailureAt := Some(now));
      }
      circuits := circuits[path := cb];
    }

    method Execute(path: string, now: real) returns (admitted: bool)
      modifies this
      ensures var guarded := paths == [] || exists i :: 0 <= i < |paths| && paths[i] <= path;
              (Of(path), admitted) == if guarded then Admit(config, old(Of(path)), now) else (old(Of(path)), true)
      ensures forall p :: p != path ==> Of(p) == old(Of(p))
    {
      if paths != [] && !exists i :: 0 <= i < |paths| && paths[i] <= path {
        return true;
      }
      var cb := Of(path);
      admitted := true;
      if cb.state == Open {
        if cb.lastFailureAt.Some? && now - cb.lastFailureAt.value >= config.timeout {
          cb := cb.(state := HalfOpen, successCount := 0);
        } else {
          admitted := false;
        }
      }
      circuits := circuits[path := cb];
    }
  }

  // ----- The trace it stands for -----

  /** No counters: only the state, what happened since the state last changed, and the latest failure. */
  datatype Trace = Trace(state: CircuitState, since: seq<Op>, latestFailure: Option<real>)

  const NEW_TRACE := Trace(Closed, [], None)

  /** Failures after the last success. */
  function ConsecutiveFailures(ops: seq<Op>): nat {
    if ops == [] then 0
    else
      var before := ops[..|ops| - 1];
      match ops[|ops| - 1]
      case Success => 0
      case Failure(_) => ConsecutiveFailures(before) + 1
      case Request(_) => ConsecutiveFailures(before)
  }

  function Successes(ops: seq<Op>): nat {
    if ops == [] then 0 else Successes(ops[..|ops| - 1]) + if ops[|ops| - 1].Success? then 1 else 0
  }

  predicate NoFailure(ops: seq<Op>) {
    forall i :: 0 <= i < |ops| ==> !ops[i].Failure?
  }

  /** The next state, read off the trace alone. */
  function NextState(cfg: Config, t: Trace, op: Op): CircuitState {
    match t.state
    case Closed => if op.Failure? && ConsecutiveFailures(t.since) + 1 >= cfg.failureThreshold then Open else Closed
    case HalfOpen =>
      if op.Failure? then Open
      else if op.Success? && Successes(t.since) + 1 >= cfg.successThreshold then Closed else HalfOpen
    case Open =>
      if op.Request? && t.latestFailure.Some? && op.now - t.latestFailure.value >= cfg.timeout then HalfOpen else Open
  }

  /** A request passes exactly if the circuit is not open afterwards. */
  function Follow(cfg: Config, t: Trace, op: Op): (Trace, bool) {
    var next := NextState(cfg, t, op);
    (Trace(next, if next == t.state then t.since + [op] else [], if op.Failure? then Some(op.now) else t.latestFailure),
     op.Request? ==> next != Open)
  }

  ghost predicate Refines(cfg: Config, c: Circuit, t: Trace) {
    && c.state == t.state
    && (c.state == Closed ==>
          c.failureCount == ConsecutiveFailures(t.since) && (t.since == [] || c.failureCount < cfg.failureThreshold))
    && (c.state == HalfOpen ==>
          && NoFailure(t.since) && c.successCount == Successes(t.since)
          && (t.since == [] || c.successCount < cfg.successThreshold))
    && (c.state == Open ==> c.lastFailureAt.Some? && c.lastFailureAt == t.latestFailure)
  }

  lemma AppendOp(ops: seq<Op>, op: Op)
    ensures Successes(ops + [op]) == Successes(ops) + if op.Success? then 1 else 0
    ensures ConsecutiveFailures(ops + [op])
         == match op
            case Success => 0
            case Failure(_) => ConsecutiveFailures(ops) + 1
            case Request(_) => ConsecutiveFailures(ops)
  {
    assert (ops + [op])[..|ops|] == ops;
  }

  lemma StepRefines(cfg: Config, c: Circuit, t: Trace, op: Op)
    requires cfg.failureThreshold >= 1 && cfg.successThreshold >= 1 && Refines(cfg, c, t)
    ensures Refines(cfg, Apply(cfg, c, op).0, Follow(cfg, t, op).0)
    ensures Apply(cfg, c, op).1 == Follow(cfg, t, op).1
  {
    AppendOp(t.since, op);
  }

  function Run(cfg: Config, ops: seq<Op>): Circuit {
    if ops == [] then NEW_CIRCUIT else Apply(cfg, Run(cfg, ops[..|ops| - 1]), ops[|ops| - 1]).0
  }

  function TraceOf(cfg: Config, ops: seq<Op>): Trace {
    if ops == [] then NEW_TRACE else Follow(cfg, TraceOf(cfg, ops[..|ops| - 1]), ops[|ops| - 1]).0
  }

  /** After every run the counters agree with the trace, so the next verdict does too. */
  lemma {:induction false} RunRefines(cfg: Config, ops: seq<Op>, next: Op)
    requires cfg.failureThreshold >= 1 && cfg.successThreshold >= 1
    ensures Refines(cfg, Run(cfg, ops), TraceOf(cfg, ops))
    ensures Apply(cfg, Run(cfg, ops), next).1 == Follow(cfg, TraceOf(cfg, ops), next).1
  {
    if ops == [] {
    } else {
      RunRefines(cfg, ops[..|ops| - 1], ops[|ops| - 1]);
      StepRefines(cfg, Run(cfg, ops[..|ops| - 1]), TraceOf(cfg, ops[..|ops| - 1]), ops[|ops| - 1]);
    }
    StepRefines(cfg, Run(cfg, ops), TraceOf(cfg, ops), next);
  }

  /** The time of the latest failure in a list of operations. */
  function LatestFailure(ops: seq<Op>): Option<real> {
    if ops == [] then None
    else if ops[|ops| - 1].Failure? then Some(ops[|ops| - 1].now)
    else LatestFailure(ops[..|ops| - 1])
  }

  lemma {:induction false} TraceLatestFailure(cfg: Config, ops: seq<Op>)
    ensures TraceOf(cfg, ops).latestFailure == LatestFailure(ops)
  {
    if ops == [] {
    } else {
      TraceLatestFailure(cfg, ops[..|ops| - 1]);
    }
  }

  /** While open, a request passes exactly when the timeout has gone by since the latest recorded failure. */
  lemma {:induction false} OpenBlocksUntilTimeout(cfg: Config, ops: seq<Op>, now: real)
    requires cfg.failureThreshold >= 1 && cfg.successThreshold >= 1 && Run(cfg, ops).state == Open
    ensures LatestFailure(ops).Some?
    ensures Admit(cfg, Run(cfg, ops), now).1 <==> now - LatestFailure(ops).value >= cfg.timeout
  {
    RunRefines(cfg, ops, Request(now));
    TraceLatestFailure(cfg, ops);
  }

  /** How many operations had been made when the state last changed. */
  function LastChange(cfg: Config, ops: seq<Op>): (start: nat)
    ensures start <= |ops|
  {
    if ops == [] then 0
    else if TraceOf(cfg, ops).state == TraceOf(cfg, ops[..|ops| - 1]).state then LastChange(cfg, ops[..|ops| - 1])
    else |ops|
  }

  lemma {:induction false} SinceLastChange(cfg: Config, ops: seq<Op>)
    ensures TraceOf(cfg, ops).since == ops[LastChange(cfg, ops)..]
  {
    if ops == [] {
    } else {
      var before := ops[..|ops| - 1];
      SinceLastChange(cfg, before);
      if TraceOf(cfg, ops).state == TraceOf(cfg, before).state {
        assert ops[LastChange(cfg, ops)..] == before[LastChange(cfg, before)..] + [ops[|ops| - 1]];
      }
    }
  }

  lemma {:induction false} SameSinceLastChange(cfg: Config, ops: seq<Op>, k: nat)
    requires LastChange(cfg, ops) <= k <= |ops|
    ensures TraceOf(cfg, ops[..k]).state == TraceOf(cfg, ops).state
  {
    if k < |ops| {
      SameSinceLastChange(cfg, ops[..|ops| - 1], k);
      assert ops[..|ops| - 1][..k] == ops[..k];
    } else {
      assert ops[..k] == ops;
    }
  }

  lemma {:induction false} ChangedAtLastChange(cfg: Config, ops: seq<Op>)
    ensures var start := LastChange(cfg, ops);
            start > 0 ==> TraceOf(cfg, ops[..start - 1]).state != TraceOf(cfg, ops).state
  {
    if ops != [] && LastChange(cfg, ops) < |ops| {
      var before, start := ops[..|ops| - 1], LastChange(cfg, ops);
      ChangedAtLastChange(cfg, before);
      if start > 0 {
        assert before[..start - 1] == ops[..start - 1];
      }
    }
  }

  /** The stretch of a run since its state last changed, in terms of the counters. */
  lemma SegmentOfRun(cfg: Config, ops: seq<Op>) returns (start: nat)
    requires cfg.failureThreshold >= 1 && cfg.successThreshold >= 1
    ensures start <= |ops| && TraceOf(cfg, ops).since == ops[start..]
    ensures forall k :: start <= k <= |ops| ==> Run(cfg, ops[..k]).state == Run(cfg, ops).state
    ensures start > 0 ==> Run(cfg, ops[..start - 1]).state != Run(cfg, ops).state
  {
    start := LastChange(cfg, ops);
    SinceLastChange(cfg, ops);
    ChangedAtLastChange(cfg, ops);
    RunRefines(cfg, ops, Success);
    forall k | start <= k <= |ops|
      ensures Run(cfg, ops[..k]).state == Run(cfg, ops).state
    {
      SameSinceLastChange(cfg, ops, k);
      RunRefines(cfg, ops[..k], Success);
    }
    if start > 0 {
      RunRefines(cfg, ops[..start - 1], Success);
    }
  }

  /** A half-open circuit closes only by the last of `successThreshold` successes in a row of operations
      without a failure, all since it became half-open. */
  lemma ClosesOnlyAfterSuccesses(cfg: Config, ops: seq<Op>, op: Op) returns (start: nat)
    requires cfg.failureThreshold >= 1 && cfg.successThreshold >= 1
    requires Run(cfg, ops).state == HalfOpen && Apply(cfg, Run(cfg, ops), op).0.state == Closed
    ensures start <= |ops| && forall k :: start <= k <= |ops| ==> Run(cfg, ops[..k]).state == HalfOpen
    ensures op.Success? && NoFailure(ops[start..]) && Successes(ops[start..]) + 1 == cfg.successThreshold
  {
    RunRefines(cfg, ops, op);
    start := SegmentOfRun(cfg, ops);
  }

  /** While closed, the count is the consecutive failures since the last success or closing, and below the threshold. */
  lemma {:induction false} ClosedCountsFailures(cfg: Config, ops: seq<Op>) returns (start: nat)
    requires cfg.failureThreshold >= 1 && cfg.successThreshold >= 1 && Run(cfg, ops).state == Closed
    ensures start <= |ops| && forall k :: start <= k <= |ops| ==> Run(cfg, ops[..k]).state == Closed
    ensures start > 0 ==> Run(cfg, ops[..start - 1]).state != Closed
    ensures Run(cfg, ops).failureCount == ConsecutiveFailures(ops[start..]) < cfg.failureThreshold
  {
    RunRefines(cfg, ops, Success);
    start := SegmentOfRun(cfg, ops);
  }
}
