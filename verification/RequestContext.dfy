/** Request-scoped database contexts: a transaction state machine over one pooled
    connection, against a server and a pool that may fail at any call. */
module RequestContext {

  datatype ContextState = Idle | Connected | InTransaction | Committed | RolledBack | Closed

  datatype Statement = BEGIN | COMMIT | ROLLBACK | SQL

  /** What a connection sees: it is taken from the pool, executes statements, goes back. */
  datatype Event = Acquired | Executed(statement: Statement, ok: bool) | Released

  /** A context as a value, with the history of its connection events. */
  datatype Context = Context(
    connected: bool, state: ContextState, autoCommit: bool, hasError: bool, inTransaction: bool, log: seq<Event>)

  const NEW_CONTEXT := Context(false, Idle, true, false, false, [])

  // ----- The operations on values; `ok` is the server's reply, `pool` whether a connection can be had -----

  function Connect(c: Context, pool: bool): Context {
    if c.connected || !pool then c else c.(connected := true, state := Connected, log := c.log + [Acquired])
  }

  function Note(c: Context, statement: Statement, ok: bool): Context {
    c.(log := c.log + [Executed(statement, ok)])
  }

  function Begun(c: Context, pool: bool, ok: bool): (Context, bool) {
    var d := Connect(c, pool);
    if !d.connected || d.inTransaction then (d, false)
    else if ok then (Note(d, BEGIN, true).(inTransaction := true, state := InTransaction), true)
    else (Note(d, BEGIN, false), false)
  }

  /** Commit or roll back. */
  function Ended(c: Context, statement: Statement, ok: bool): (Context, bool) {
    if !c.inTransaction || !c.connected then (c, false)
    else if ok then
      var state := if statement == COMMIT then Committed else RolledBack;
      (Note(c, statement, true).(inTransaction := false, state := state), true)
    else (Note(c, statement, false), false)
  }

  function Queried(c: Context, pool: bool, ok: bool): (Context, bool) {
    var d := Connect(c, pool);
    if !d.connected then (d, false) else (Note(d, SQL, ok), ok)
  }

  function LastStatement(c: Context): Statement {
    if !c.hasError && c.autoCommit then COMMIT else ROLLBACK
  }

  function Finalized(c: Context, ok: bool): (Context, bool) {
    var (d, ended) := if c.inTransaction then Ended(c, LastStatement(c), ok) else (c, true);
    if !ended then (d, false)
    else (d.(connected := false, state := Closed, log := if d.connected then d.log + [Released] else d.log), true)
  }

  datatype Op =
    | Begin(pool: bool, ok: bool)
    | Commit(ok: bool)
    | Rollback(ok: bool)
    | Query(pool: bool, ok: bool)
    | SetError
    | SetAutoCommit(on: bool)
    | Finalize(ok: bool)

  function Apply(c: Context, op: Op): (Context, bool) {
    match op
    case Begin(pool, ok) => Begun(c, pool, ok)
    case Commit(ok) => Ended(c, COMMIT, ok)
    case Rollback(ok) => Ended(c, ROLLBACK, ok)
    case Query(pool, ok) => Queried(c, pool, ok)
    case SetError => (c.(hasError := true), true)
    case SetAutoCommit(on) => (c.(autoCommit := on), true)
    case Finalize(ok) => Finalized(c, ok)
  }

  function Run(c: Context, ops: seq<Op>): Context {
    if ops == [] then c else Apply(Run(c, ops[..|ops| - 1]), ops[|ops| - 1]).0
  }

  // ----- The object, updated in place -----

  class DatabaseContext {
    const request: string
    const alias: string
    var connected: bool
    var state: ContextState
    var autoCommit: bool
    var hasError: bool
    var inTransaction: bool
    ghost var log: seq<Event>

    ghost function Value(): Context
      reads this
    {
      Context(connected, state, autoCommit, hasError, inTransaction, log)
    }

    constructor (request: string, alias: string)
      ensures Value() == NEW_CONTEXT && this.request == request && this.alias == alias
    {
      this.request, this.alias := request, alias;
      connected, state, autoCommit, hasError, inTransaction, log := false, Idle, true, false, false, [];
    }

    method EnsureConnection(pool: bool) returns (success: bool)
      modifies this
      ensures Value() == Connect(old(Value()), pool) && success == connected
    {
      if connected {
        return true;
      }
      if !pool {
        return false;
      }
      connected := true;
      state := Connected;
      log := log + [Acquired];
      return true;
    }

    method Begin(pool: bool, ok: bool) returns (success: bool)
      modifies this
      ensures (Value(), success) == Begun(old(Value()), pool, ok)
    {
      success := EnsureConnection(pool);
      if !success {
        return;
      }
      if inTransaction {
        return false;
      }
      log := log + [Executed(BEGIN, ok)];
      if !ok {
        return false;
      }
      inTransaction := true;
      state := InTransaction;
    }

    method Commit(ok: bool) returns (success: bool)
      modifies this
      ensures (Value(), success) == Ended(old(Value()), COMMIT, ok)
    {
      if !inTransaction || !connected {
        return false;
      }
      log := log + [Executed(COMMIT, ok)];
      if !ok {
        return false;
      }
      inTransaction := false;
      state := Committed;
      return true;
    }

    method Rollback(ok: bool) returns (success: bool)
      modifies this
      ensures (Value(), success) == Ended(old(Value()), ROLLBACK, ok)
    {
      if !inTransaction || !connected {
        return false;
      }
      log := log + [Executed(ROLLBACK, ok)];
      if !ok {
        return false;
      }
      inTransaction := false;
      state := RolledBack;
      return true;
    }

    method Query(pool: bool, ok: bool) returns (success: bool)
      modifies this
      ensures (Value(), success) == Queried(old(Value()), pool, ok)
    {
      success := EnsureConnection(pool);
      if success {
        log := log + [Executed(SQL, ok)];
        success := ok;
      }
    }

    method Finalize(ok: bool) returns (success: bool)
      modifies this
      ensures (Value(), success) == Finalized(old(Value()), ok)
    {
      success := true;
      if inTransaction {
        if hasError {
          success := Rollback(ok);
        } else if autoCommit {
          success := Commit(ok);
        } else {
          success := Rollback(ok);
        }
      }
      if !success {
        return;
      }
      if connected {
        connected := false;
        log := log + [Released];
      }
      state := Closed;
    }
  }

  // ----- The protocol a connection must see -----

  datatype Track = Pooled | Held | Open | Violation

  /** Statements only on a held connection, BEGIN only outside a transaction, COMMIT and ROLLBACK
      only inside one, and the connection goes back to the pool only outside one. */
  function Follow(t: Track, e: Event): Track {
    match (t, e)
    case (Pooled, Acquired) => Held
    case (Held, Released) => Pooled
    case (Held, Executed(BEGIN, ok)) => if ok then Open else Held
    case (Open, Executed(COMMIT, ok)) => if ok then Held else Open
    case (Open, Executed(ROLLBACK, ok)) => if ok then Held else Open
    case (Held, Executed(SQL, _)) => Held
    case (Open, Executed(SQL, _)) => Open
    case _ => Violation
  }

  function FollowAll(log: seq<Event>): Track {
    if log == [] then Pooled else Follow(FollowAll(log[..|log| - 1]), log[|log| - 1])
  }

  lemma FollowAppend(log: seq<Event>, e: Event)
    ensures FollowAll(log + [e]) == Follow(FollowAll(log), e)
  {
    assert (log + [e])[..|log|] == log;
  }

  function TrackOf(c: Context): Track {
    if !c.connected then Pooled else if c.inTransaction then Open else Held
  }

  predicate Inv(c: Context) {
    && (c.inTransaction ==> c.connected)
    && FollowAll(c.log) == TrackOf(c)
  }

  lemma ConnectInv(c: Context, pool: bool)
    requires Inv(c)
    ensures Inv(Connect(c, pool))
  {
    FollowAppend(c.log, Acquired);
  }

  lemma BegunInv(c: Context, pool: bool, ok: bool)
    requires Inv(c)
    ensures Inv(Begun(c, pool, ok).0) && Inv(Queried(c, pool, ok).0)
  {
    ConnectInv(c, pool);
    var d := Connect(c, pool);
    FollowAppend(d.log, Executed(BEGIN, ok));
    FollowAppend(d.log, Executed(SQL, ok));
  }

  lemma EndedInv(c: Context, statement: Statement, ok: bool)
    requires Inv(c) && (statement == COMMIT || statement == ROLLBACK)
    ensures Inv(Ended(c, statement, ok).0)
  {
    FollowAppend(c.log, Executed(statement, ok));
  }

  lemma FinalizedInv(c: Context, ok: bool)
    requires Inv(c)
    ensures Inv(Finalized(c, ok).0)
  {
    EndedInv(c, LastStatement(c), ok);
    var d := if c.inTransaction then Ended(c, LastStatement(c), ok).0 else c;
    FollowAppend(d.log, Released);
  }

  lemma ApplyInv(c: Context, op: Op)
    requires Inv(c)
    ensures Inv(Apply(c, op).0)
  {
    match op {
      case Begin(pool, ok) => BegunInv(c, pool, ok);
      case Query(pool, ok) => BegunInv(c, pool, ok);
      case Commit(ok) => EndedInv(c, COMMIT, ok);
      case Rollback(ok) => EndedInv(c, ROLLBACK, ok);
      case Finalize(ok) => FinalizedInv(c, ok);
      case _ =>
    }
  }

  /** Whatever the pool and the server answer, the connection sees a well-bracketed history,
      and the flags say where in it the context is: in a transaction only on a held connection. */
  lemma {:induction false} EveryRunIsBracketed(ops: seq<Op>)
    ensures Inv(Run(NEW_CONTEXT, ops))
  {
    if ops == [] {
    } else {
      EveryRunIsBracketed(ops[..|ops| - 1]);
      ApplyInv(Run(NEW_CONTEXT, ops[..|ops| - 1]), ops[|ops| - 1]);
    }
  }

  // ----- What the server has open -----

  /** `after` is possible on the server: an acknowledged statement took effect, and a failed one may have
      taken effect or not. The pool hands out connections without an open transaction. */
  predicate ServerMay(before: bool, e: Event, after: bool) {
    match e
    case Acquired => !after
    case Executed(BEGIN, ok) => if ok then after else before ==> after
    case Executed(COMMIT, ok) => if ok then !after else after ==> before
    case Executed(ROLLBACK, ok) => if ok then !after else after ==> before
    case _ => after == before
  }

  /** One possible history of the server's open-transaction flag along a log. */
  ghost predicate ServerHistory(log: seq<Event>, open: seq<bool>) {
    && |open| == |log| + 1 && !open[0]
    && forall i :: 0 <= i < |log| ==> ServerMay(open[i], log[i], open[i + 1])
  }

  predicate IsControl(e: Event) { e.Executed? && e.statement != SQL }

  /** The last statement on the connection was a BEGIN that failed, queries apart. */
  predicate EndsInFailedBegin(log: seq<Event>) {
    if log == [] || log[|log| - 1] == Acquired then false
    else if IsControl(log[|log| - 1]) then log[|log| - 1] == Executed(BEGIN, false)
    else EndsInFailedBegin(log[..|log| - 1])
  }

  lemma {:induction false} OpenOnServerIsTracked(log: seq<Event>, open: seq<bool>)
    requires ServerHistory(log, open) && FollowAll(log) == Held
    ensures open[|log|] ==> EndsInFailedBegin(log)
  {
    var n := |log| - 1;
    assert ServerMay(open[n], log[n], open[n + 1]);
    if log[n].Executed? && log[n].statement == SQL {
      OpenOnServerIsTracked(log[..n], open[..n + 1]);
    }
  }

  /** The history in which every failed statement has the worse effect. */
  function OpenAtWorst(log: seq<Event>): bool {
    if log == [] then false
    else
      match log[|log| - 1]
      case Acquired => false
      case Executed(BEGIN, _) => true
      case Executed(COMMIT, ok) => !ok && OpenAtWorst(log[..|log| - 1])
      case Executed(ROLLBACK, ok) => !ok && OpenAtWorst(log[..|log| - 1])
      case _ => OpenAtWorst(log[..|log| - 1])
  }

  lemma WorstIsPossible(log: seq<Event>) returns (open: seq<bool>)
    ensures ServerHistory(log, open)
    ensures forall i :: 0 <= i <= |log| ==> open[i] == OpenAtWorst(log[..i])
  {
    open := seq(|log| + 1, i requires 0 <= i <= |log| => OpenAtWorst(log[..i]));
    forall i | 0 <= i < |log|
      ensures ServerMay(open[i], log[i], open[i + 1])
    {
      assert log[..i + 1][..i] == log[..i];
    }
  }

  lemma {:induction false} FailedBeginMayBeOpen(log: seq<Event>)
    requires EndsInFailedBegin(log)
    ensures OpenAtWorst(log)
  {
    if !IsControl(log[|log| - 1]) {
      FailedBeginMayBeOpen(log[..|log| - 1]);
    }
  }

  lemma {:induction false} PrefixFollows(log: seq<Event>, i: nat)
    requires i <= |log| && FollowAll(log) != Violation
    ensures FollowAll(log[..i]) != Violation
  {
    if i < |log| {
      PrefixFollows(log[..|log| - 1], i);
      assert log[..|log| - 1][..i] == log[..i];
    } else {
      assert log[..i] == log;
    }
  }

  lemma {:induction false} HistoryPrefix(log: seq<Event>, open: seq<bool>, i: nat)
    requires ServerHistory(log, open) && i <= |log|
    ensures ServerHistory(log[..i], open[..i + 1])
  {
    forall j | 0 <= j < i
      ensures ServerMay(open[..i + 1][j], log[..i][j], open[..i + 1][j + 1])
    {
      assert ServerMay(open[j], log[j], open[j + 1]);
    }
  }

  /** Where a run gives a connection back, the server can still have a transaction open on it exactly if the last
      BEGIN, COMMIT or ROLLBACK since it was taken is a BEGIN that reported a failure. */
  lemma ReleasesOpenIff(ops: seq<Op>, i: nat)
    requires i < |Run(NEW_CONTEXT, ops).log| && Run(NEW_CONTEXT, ops).log[i] == Released
    ensures var log := Run(NEW_CONTEXT, ops).log;
            (exists open: seq<bool> :: ServerHistory(log, open) && open[i]) <==> EndsInFailedBegin(log[..i])
  {
    var log := Run(NEW_CONTEXT, ops).log;
    EveryRunIsBracketed(ops);
    PrefixFollows(log, i + 1);
    assert log[..i + 1][..i] == log[..i];
    PrefixFollows(log, i);
    if EndsInFailedBegin(log[..i]) {
      FailedBeginMayBeOpen(log[..i]);
      var open := WorstIsPossible(log);
      assert open[i];
    } else {
      forall open: seq<bool> | ServerHistory(log, open)
        ensures !open[i]
      {
        HistoryPrefix(log, open, i);
        OpenOnServerIsTracked(log[..i], open[..i + 1]);
      }
    }
  }

  /** So a context that never saw a failed BEGIN never gives back a connection with a transaction open. */
  lemma NeverReleasesOpenTransaction(ops: seq<Op>, open: seq<bool>, i: nat)
    requires var log := Run(NEW_CONTEXT, ops).log; ServerHistory(log, open) && i < |log| && log[i] == Released
    requires Executed(BEGIN, false) !in Run(NEW_CONTEXT, ops).log[..i]
    ensures !open[i]
  {
    ReleasesOpenIff(ops, i);
    NoFailedBegin(Run(NEW_CONTEXT, ops).log[..i]);
  }

  lemma {:induction false} NoFailedBegin(log: seq<Event>)
    requires Executed(BEGIN, false) !in log
    ensures !EndsInFailedBegin(log)
  {
    if log != [] && !IsControl(log[|log| - 1]) {
      NoFailedBegin(log[..|log| - 1]);
    }
  }

  /** The shortest such run: a BEGIN that reports a failure, then the end of the request. */
  lemma FailedBeginCanLeak()
    ensures var ops := [Begin(true, false), Finalize(true)];
            var log := Run(NEW_CONTEXT, ops).log;
            log == [Acquired, Executed(BEGIN, false), Released] &&
                exists open: seq<bool> :: ServerHistory(log, open) && open[2]
  {
    var ops := [Begin(true, false), Finalize(true)];
    assert ops[..1] == [Begin(true, false)] && ops[..1][..0] == [];
    var log := [Acquired, Executed(BEGIN, false), Released];
    assert Run(NEW_CONTEXT, []) == NEW_CONTEXT;
    assert Run(NEW_CONTEXT, ops[..1]).log == [Acquired, Executed(BEGIN, false)];
    assert Run(NEW_CONTEXT, ops).log == log;
    assert ServerHistory(log, [false, false, true, true]);
  }

  // ----- What every call puts on the connection -----

  ghost predicate ErrorSet(ops: seq<Op>) { SetError in ops }

  /** The last `set_auto_commit` decides; without one it is on. */
  ghost predicate AutoCommitOn(ops: seq<Op>) {
    forall i :: 0 <= i < |ops| && ops[i] == SetAutoCommit(false) ==>
      exists j :: i < j < |ops| && ops[j] == SetAutoCommit(true)
  }

  lemma {:induction false} FlagsAreHistory(ops: seq<Op>)
    ensures Run(NEW_CONTEXT, ops).hasError <==> ErrorSet(ops)
    ensures Run(NEW_CONTEXT, ops).autoCommit <==> AutoCommitOn(ops)
  {
    if ops == [] {
    } else {
      var before, op := ops[..|ops| - 1], ops[|ops| - 1];
      assert ops == before + [op];
      FlagsAreHistory(before);
      FlagsStep(Run(NEW_CONTEXT, before), op);
      AutoCommitStep(before, op);
      assert SetError in ops <==> SetError in before || op == SetError;
    }
  }

  lemma FlagsStep(c: Context, op: Op)
    ensures Apply(c, op).0.hasError <==> c.hasError || op == SetError
    ensures Apply(c, op).0.autoCommit == if op.SetAutoCommit? then op.on else c.autoCommit
  {
  }

  lemma AutoCommitStep(before: seq<Op>, op: Op)
    ensures AutoCommitOn(before + [op]) <==> (if op.SetAutoCommit? then op.on else AutoCommitOn(before))
  {
    var ops := before + [op];
    var n := |before|;
    assert ops[n] == op;
    forall i | 0 <= i < n && before[i] == SetAutoCommit(false)
      ensures ops[i] == SetAutoCommit(false)
      ensures (exists j :: i < j < |ops| && ops[j] == SetAutoCommit(true)) <==>
                op == SetAutoCommit(true) || exists j :: i < j < n && before[j] == SetAutoCommit(true)
    {
      forall j | i < j < n
        ensures ops[j] == before[j]
      {
      }
    }
  }

  /** The events one call adds after the calls `ops`: decided by where the connection is in its own history, and at the
      end by the flags the calls have set. A clean request in a transaction is committed; one with an error, or with
      auto-commit off, is rolled back. */
  ghost function Adds(ops: seq<Op>, op: Op): seq<Event> {
    var track := FollowAll(Run(NEW_CONTEXT, ops).log);
    match op
    case Begin(pool, ok) =>
      if track == Held then [Executed(BEGIN, ok)]
      else if track == Pooled && pool then [Acquired, Executed(BEGIN, ok)] else []
    case Query(pool, ok) =>
      if track != Pooled then [Executed(SQL, ok)] else if pool then [Acquired, Executed(SQL, ok)] else []
    case Commit(ok) => if track == Open then [Executed(COMMIT, ok)] else []
    case Rollback(ok) => if track == Open then [Executed(ROLLBACK, ok)] else []
    case Finalize(ok) =>
      if track == Pooled then []
      else if track == Held then [Released]
      else
        [Executed(if !ErrorSet(ops) && AutoCommitOn(ops) then COMMIT else ROLLBACK, ok)] + if ok then [Released] else []
    case _ => []
  }

  /** Whether the call succeeds. */
  ghost predicate Succeeds(ops: seq<Op>, op: Op) {
    var track := FollowAll(Run(NEW_CONTEXT, ops).log);
    match op
    case Begin(pool, ok) => track != Open && (track == Held || pool) && ok
    case Query(pool, ok) => (track != Pooled || pool) && ok
    case Commit(ok) => track == Open && ok
    case Rollback(ok) => track == Open && ok
    case Finalize(ok) => track != Open || ok
    case _ => true
  }

  lemma EveryCallAdds(ops: seq<Op>, op: Op)
    ensures Run(NEW_CONTEXT, ops + [op]).log == Run(NEW_CONTEXT, ops).log + Adds(ops, op)
    ensures Apply(Run(NEW_CONTEXT, ops), op).1 <==> Succeeds(ops, op)
  {
    assert (ops + [op])[..|ops|] == ops;
    EveryRunIsBracketed(ops);
    FlagsAreHistory(ops);
    var before := Run(NEW_CONTEXT, ops);
    assert before.log + [] == before.log;
    assert forall e, f :: before.log + [e] + [f] == before.log + [e, f];
    assert forall e, f: seq<Event> :: before.log + [e] + f == before.log + ([e] + f);
  }

  /** The state a session shows: what the last call that took effect made it. */
  ghost function StateAfter(ops: seq<Op>): ContextState {
    if ops == [] then Idle
    else
      var before, op := ops[..|ops| - 1], ops[|ops| - 1];
      if op.Begin? && Succeeds(before, op) then InTransaction
      else if op.Commit? && Succeeds(before, op) then Committed
      else if op.Rollback? && Succeeds(before, op) then RolledBack
      else if op.Finalize? && Succeeds(before, op) then Closed
      else if Acquired in Adds(before, op) then Connected
      else StateAfter(before)
  }

  lemma StateStep(ops: seq<Op>, op: Op)
    ensures var c, d := Run(NEW_CONTEXT, ops), Run(NEW_CONTEXT, ops + [op]);
            d.state == if op.Begin? && Succeeds(ops, op) then InTransaction
                       else if op.Commit? && Succeeds(ops, op) then Committed
                       else if op.Rollback? && Succeeds(ops, op) then RolledBack
                       else if op.Finalize? && Succeeds(ops, op) then Closed
                       else if Acquired in Adds(ops, op) then Connected
                       else c.state
  {
    assert (ops + [op])[..|ops|] == ops;
    EveryRunIsBracketed(ops);
    var c := Run(NEW_CONTEXT, ops);
    assert Acquired in [Acquired] + Adds(ops, op);
    if op.Begin? || op.Query? {
      assert FollowAll(c.log) == Pooled && op.pool ==> Adds(ops, op)[0] == Acquired;
    }
  }

  lemma {:induction false} StateIsHistory(ops: seq<Op>)
    ensures Run(NEW_CONTEXT, ops).state == StateAfter(ops)
  {
    if ops == [] {
    } else {
      var before, op := ops[..|ops| - 1], ops[|ops| - 1];
      assert ops == before + [op];
      StateIsHistory(before);
      StateStep(before, op);
    }
  }

  // ----- After an error -----

  lemma ErrorStaysSet(c: Context, op: Op)
    requires c.hasError
    ensures Apply(c, op).0.hasError
  {
  }

  lemma {:induction false} ErrorIsSticky(c: Context, ops: seq<Op>)
    requires c.hasError
    ensures Run(c, ops).hasError
  {
    if ops == [] {
    } else {
      ErrorIsSticky(c, ops[..|ops| - 1]);
      ErrorStaysSet(Run(c, ops[..|ops| - 1]), ops[|ops| - 1]);
    }
  }

  /** Once an error was recorded, finalizing never commits: it adds no COMMIT to the history,
      and if it succeeds in a transaction, it rolled back. */
  lemma FinalizeAfterErrorNeverCommits(c: Context, ops: seq<Op>, ok: bool)
    ensures var before := Run(Apply(c, SetError).0, ops);
            var (after, success) := Finalized(before, ok);
            && before.log <= after.log
            && (forall e :: e in after.log[|before.log|..] ==> !(e.Executed? && e.statement == COMMIT))
            && (success && before.inTransaction ==> Executed(ROLLBACK, true) in after.log[|before.log|..])
  {
    ErrorIsSticky(Apply(c, SetError).0, ops);
    var before := Run(Apply(c, SetError).0, ops);
    var (after, success) := Finalized(before, ok);
    if before.inTransaction && before.connected {
      assert after.log[|before.log|..]
          == if success then [Executed(ROLLBACK, true), Released] else [Executed(ROLLBACK, false)];
      assert success ==> [Executed(ROLLBACK, true), Released][0] == Executed(ROLLBACK, true);
    }
  }

  // ----- All contexts of a request -----

  type Contexts = map<string, map<string, DatabaseContext>>

  predicate Has(m: Contexts, request: string, alias: string) { request in m && alias in m[request] }

  function Of(m: Contexts, request: string): map<string, DatabaseContext> {
    if request in m then m[request] else map[]
  }

  /** A request is only in the table while it has a context. */
  ghost predicate NonEmpty(m: Contexts) {
    forall r :: r in m ==> m[r] != map[]
  }

  /** Every context is where its own names say. */
  ghost predicate InPlace(m: Contexts) {
    forall r, a :: Has(m, r, a) ==> m[r][a].request == r && m[r][a].alias == a
  }

  /** The two tables agree on this entry. */
  predicate SameAt(m: Contexts, n: Contexts, r: string, a: string) {
    if Has(m, r, a) then Has(n, r, a) && m[r][a] == n[r][a] else !Has(n, r, a)
  }

  function Added(m: Contexts, request: string, alias: string, c: DatabaseContext): Contexts {
    var perAlias: map<string, DatabaseContext> := if request in m then m[request] else map[];
    m[request := perAlias[alias := c]]
  }

  function Removed(m: Contexts, request: string, alias: string): Contexts
    requires request in m
  {
    var perAlias := m[request] - {alias};
    if perAlias == map[] then m - {request} else m[request := perAlias]
  }

  lemma AddedAt(m: Contexts, request: string, alias: string, c: DatabaseContext, r: string, a: string)
    requires (r, a) != (request, alias)
    ensures SameAt(m, Added(m, request, alias, c), r, a)
  {
  }

  lemma AddedIs(m: Contexts, request: string, alias: string, c: DatabaseContext)
    requires NonEmpty(m) && InPlace(m) && c.request == request && c.alias == alias
    ensures NonEmpty(Added(m, request, alias, c)) && InPlace(Added(m, request, alias, c))
  {
    var n := Added(m, request, alias, c);
    forall r, a | Has(n, r, a)
      ensures n[r][a].request == r && n[r][a].alias == a
    {
      if (r, a) != (request, alias) {
        AddedAt(m, request, alias, c, r, a);
      }
    }
    assert alias in n[request];
  }

  lemma RemovedAt(m: Contexts, request: string, alias: string, r: string, a: string)
    requires request in m
    ensures if (r, a) == (request, alias) then !Has(Removed(m, request, alias), r, a)
            else SameAt(m, Removed(m, request, alias), r, a)
  {
    assert r == request ==> (a in m[request] - {alias} <==> a in m[request] && a != alias);
  }

  lemma RemovedIs(m: Contexts, request: string, alias: string)
    requires Has(m, request, alias) && NonEmpty(m) && InPlace(m)
    ensures NonEmpty(Removed(m, request, alias)) && InPlace(Removed(m, request, alias))
  {
    var n := Removed(m, request, alias);
    forall r, a | Has(n, r, a)
      ensures n[r][a].request == r && n[r][a].alias == a
    {
      RemovedAt(m, request, alias, r, a);
    }
  }

  class ContextMap {
    var contexts: Contexts

    ghost predicate Valid()
      reads this
    {
      NonEmpty(contexts) && InPlace(contexts)
    }

    constructor ()
      ensures Valid() && contexts == map[]
    {
      contexts := map[];
    }

    /** `get_db`: the shared context of the request and alias, or a new one. */
    method GetOrCreate(request: string, alias: string) returns (c: DatabaseContext)
      requires Valid()
      modifies this
      ensures Valid() && Has(contexts, request, alias) && contexts[request][alias] == c
      ensures Has(old(contexts), request, alias) ==> contexts == old(contexts)
      ensures !Has(old(contexts), request, alias) ==> fresh(c) && c.Value() == NEW_CONTEXT
      ensures forall r, a :: (r, a) != (request, alias) ==> SameAt(old(contexts), contexts, r, a)
    {
      if request in contexts && alias in contexts[request] {
        return contexts[request][alias];
      }
      c := new DatabaseContext(request, alias);
      AddedIs(contexts, request, alias, c);
      forall r, a | (r, a) != (request, alias)
        ensures SameAt(contexts, Added(contexts, request, alias, c), r, a)
      {
        AddedAt(contexts, request, alias, c, r, a);
      }
      var perAlias: map<string, DatabaseContext> := if request in contexts then contexts[request] else map[];
      contexts := contexts[request := perAlias[alias := c]];
    }

    /** Finalize one context and forget it; a failed one stays, with its connection. Without a context
        there is nothing to do. */
    method FinalizeOne(request: string, alias: string, ok: bool) returns (success: bool)
      requires Valid()
      modifies this, if Has(contexts, request, alias) then {contexts[request][alias]} else {}
      ensures Valid()
      ensures !Has(old(contexts), request, alias) ==> success && contexts == old(contexts)
      ensures Has(old(contexts), request, alias) ==>
                var c := old(contexts)[request][alias];
                && (c.Value(), success) == Finalized(old(c.Value()), ok)
                && contexts == if success then Removed(old(contexts), request, alias) else old(contexts)
    {
      if request !in contexts || alias !in contexts[request] {
        return true;
      }
      RemovedIs(contexts, request, alias);
      success := contexts[request][alias].Finalize(ok);
      if success {
        var perAlias := contexts[request] - {alias};
        contexts := if perAlias == map[] then contexts - {request} else contexts[request := perAlias];
      }
    }

    /** Finalize every context of a request, in any order, stopping at the first failure.
        `ok` is the server's reply to each context's last statement. */
    method FinalizeAll(request: string, ok: string -> bool) returns (success: bool)
      requires Valid()
      modifies this, Of(contexts, request).Values
      ensures Valid()
      ensures var goal := Goals(old(Values(Of(contexts, request))), ok);
              && (success <==> forall a :: a in goal ==> goal[a].1)
              && (success ==> request !in contexts)
              && DoneBut(goal, Values(old(Of(contexts, request))), Of(contexts, request).Keys)
      ensures forall r, a :: r != request ==> SameAt(old(contexts), contexts, r, a)
    {
      if request !in contexts {
        return true;
      }
      ghost var before := contexts;
      var snapshot := contexts[request];
      ghost var goal := Goals(Values(snapshot), ok);
      ghost var todo;
      success, todo := FinalizeSnapshot(request, snapshot, ok, goal);
      LeftInTable(before, contexts, request, todo);
      DoneOutside(goal, Values(snapshot), todo, Of(contexts, request).Keys);
      if success {
        EmptiedOut(before, contexts, request);
      }
    }

    /** The loop; `todo` is what a failure leaves. */
    method FinalizeSnapshot(request: string, snapshot: map<string, DatabaseContext>, ok: string -> bool,
                            ghost goal: map<string, (Context, bool)>)
        returns (success: bool, ghost todo: set<string>)
      requires Valid() && request in contexts && contexts[request] == snapshot && goal == Goals(Values(snapshot), ok)
      modifies this, snapshot.Values
      ensures Valid() && todo <= snapshot.Keys && Remaining(old(contexts), contexts, request, todo)
      ensures if success then todo == {} else exists a :: a in snapshot && !goal[a].1
      ensures DoneBut(goal, Values(snapshot), todo)
    {
      ghost var before, was := contexts, Values(snapshot);
      assert forall a :: a in snapshot ==> Has(before, request, a);
      var left := snapshot.Keys;
      success := true;
      while left != {}
        invariant success && Valid() && left <= snapshot.Keys
        invariant Remaining(before, contexts, request, left)
        invariant FinalizedBut(was, goal, Values(snapshot), left)
        decreases left
      {
        var a :| a in left;
        assert SameAt(before, contexts, request, a);
        RemainingStep(before, contexts, request, left, a);
        ghost var now := Values(snapshot);
        success := FinalizeListed(request, a, snapshot, ok(a), goal[a]);
        if !success {
          todo := left;
          DoneStays(was, goal, now, Values(snapshot), left, a);
          return;
        }
        FinalizedOneMore(was, goal, now, Values(snapshot), left, a);
        left := left - {a};
      }
      todo := left;
    }

    /** One context of the request, in terms of the values of all of them. */
    method FinalizeListed(request: string, alias: string, ghost snapshot: map<string, DatabaseContext>, ok: bool,
                          ghost goal: (Context, bool)) returns (success: bool)
      requires Valid() && Has(contexts, request, alias)
      requires alias in snapshot && snapshot[alias] == contexts[request][alias]
      requires forall a :: a in snapshot ==> snapshot[a].alias == a
      requires goal == Finalized(snapshot[alias].Value(), ok)
      modifies this, snapshot[alias]
      ensures Valid() && contexts == if success then Removed(old(contexts), request, alias) else old(contexts)
      ensures success == goal.1 && Values(snapshot) == old(Values(snapshot))[alias := goal.0]
    {
      success := FinalizeOne(request, alias, ok);
    }
  }

  ghost function Values(snapshot: map<string, DatabaseContext>): map<string, Context>
    reads snapshot.Values
  {
    map a | a in snapshot :: snapshot[a].Value()
  }

  /** What finalizing makes of each context. */
  ghost function Goals(was: map<string, Context>, ok: string -> bool): map<string, (Context, bool)> {
    map a | a in was :: Finalized(was[a], ok(a))
  }

  /** Everything but `todo` was finalized, with success. */
  ghost predicate FinalizedBut(was: map<string, Context>, goal: map<string, (Context, bool)>,
                               now: map<string, Context>, todo: set<string>)
  {
    && was.Keys == goal.Keys == now.Keys
    && forall a :: a in was ==> if a in todo then now[a] == was[a] else (now[a], true) == goal[a]
  }

  ghost predicate DoneBut(goal: map<string, (Context, bool)>, now: map<string, Context>, todo: set<string>) {
    goal.Keys == now.Keys && forall a :: a in goal && a !in todo ==> (now[a], true) == goal[a]
  }

  lemma DoneOutside(goal: map<string, (Context, bool)>, now: map<string, Context>, todo: set<string>, more: set<string>)
    requires DoneBut(goal, now, todo) && todo <= more
    ensures DoneBut(goal, now, more)
    ensures todo == {} ==> forall a :: a in goal ==> goal[a].1
  {
  }

  lemma DoneStays(was: map<string, Context>, goal: map<string, (Context, bool)>, now: map<string, Context>,
                  next: map<string, Context>, todo: set<string>, a: string)
    requires FinalizedBut(was, goal, now, todo) && a in todo && a in was && next == now[a := goal[a].0]
    ensures DoneBut(goal, next, todo)
  {
  }

  lemma FinalizedOneMore(was: map<string, Context>, goal: map<string, (Context, bool)>, now: map<string, Context>,
                         next: map<string, Context>, todo: set<string>, a: string)
    requires FinalizedBut(was, goal, now, todo) && a in todo && a in was && goal[a].1 && next == now[a := goal[a].0]
    ensures FinalizedBut(was, goal, next, todo - {a})
  {
  }

  /** Of the request's entries those in `todo` are left; the other requests' entries are as they were. */
  ghost predicate Remaining(before: Contexts, m: Contexts, request: string, todo: set<string>) {
    forall r, a :: if r == request && a !in todo then !Has(m, r, a) else SameAt(before, m, r, a)
  }

  lemma RemainingStep(before: Contexts, m: Contexts, request: string, todo: set<string>, alias: string)
    requires Remaining(before, m, request, todo) && Has(m, request, alias)
    ensures Remaining(before, Removed(m, request, alias), request, todo - {alias})
  {
    forall r, a
      ensures if r == request && a !in todo - {alias} then !Has(Removed(m, request, alias), r, a)
              else SameAt(before, Removed(m, request, alias), r, a)
    {
      RemovedAt(m, request, alias, r, a);
      assert if r == request && a !in todo then !Has(m, r, a) else SameAt(before, m, r, a);
    }
  }

  lemma LeftInTable(before: Contexts, m: Contexts, request: string, todo: set<string>)
    requires request in before && todo <= before[request].Keys && Remaining(before, m, request, todo)
    ensures todo <= Of(m, request).Keys
    ensures forall r, a :: r != request ==> SameAt(before, m, r, a)
  {
    forall a | a in todo
      ensures a in Of(m, request)
    {
      assert Has(before, request, a) && SameAt(before, m, request, a);
    }
  }

  lemma EmptiedOut(before: Contexts, m: Contexts, request: string)
    requires NonEmpty(m) && Remaining(before, m, request, {})
    ensures request !in m
  {
    SomeContext(m, request);
  }

  lemma SomeContext(m: Contexts, request: string)
    ensures request in m ==> m[request] == map[] || exists a :: Has(m, request, a)
  {
    if request in m && m[request] != map[] {
      var a :| a in m[request];
      assert Has(m, request, a);
    }
  }
}
