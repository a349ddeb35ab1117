/** `HeartbeatMonitor`: liveness of registered clients from their pongs. */
module Heartbeat {
  import opened Wrappers

  datatype Config = Config(timeout: real, maxRetries: nat)

  datatype Beat = Beat(lastPing: real, lastPong: real, retryCount: nat, isAlive: bool, lastEventId: Option<string>)

  type Clients = map<string, Beat>

  // ----- The table as a value -----

  function NewBeat(lastEventId: Option<string>, now: real): Beat { Beat(now, now, 0, true, lastEventId) }

  function Ponged(m: Clients, c: string, now: real): Clients {
    if c in m then m[c := m[c].(lastPong := now, retryCount := 0, isAlive := true)] else m
  }

  predicate Expires(m: Clients, c: string, now: real, timeout: real) {
    c in m && now - m[c].lastPong > timeout && m[c].isAlive
  }

  function Checked(m: Clients, now: real, timeout: real): Clients {
    map c | c in m ::
      if Expires(m, c, now, timeout) then m[c].(isAlive := false, retryCount := m[c].retryCount + 1) else m[c]
  }

  predicate Dead(m: Clients, c: string, maxRetries: nat) { c in m && m[c].retryCount > maxRetries }

  function Evicted(m: Clients, maxRetries: nat): Clients {
    map c | c in m && !Dead(m, c, maxRetries) :: m[c]
  }

  class HeartbeatMonitor {
    const config: Config
    var clients: Clients
    var totalTimeouts: nat

    constructor (config: Config)
      ensures this.config == config && clients == map[] && totalTimeouts == 0
    {
      this.config, clients, totalTimeouts := config, map[], 0;
    }

    method Register(client: string, lastEventId: Option<string>, now: real)
      modifies this`clients
      ensures clients == old(clients)[client := NewBeat(lastEventId, now)]
    {
      clients := clients[client := Beat(now, now, 0, true, lastEventId)];
    }

    method Unregister(client: string) returns (removed: bool)
      modifies this`clients
      ensures removed == (client in old(clients)) && clients == old(clients) - {client}
    {
      removed := client in clients;
      clients := clients - {client};
    }

    method Pong(client: string, now: real) returns (found: bool)
      modifies this`clients
      ensures found == (client in old(clients)) && clients == Ponged(old(clients), client, now)
    {
      found := client in clients;
      if found {
        clients := clients[client := clients[client].(lastPong := now, retryCount := 0, isAlive := true)];
      }
    }

    /** Reports each client that goes from alive to timed out, once. */
    method CheckTimeouts(now: real) returns (timedOut: set<string>)
      modifies this
      ensures clients == Checked(old(clients), now, config.timeout)
      ensures timedOut == set c | c in old(clients) && Expires(old(clients), c, now, config.timeout)
      ensures totalTimeouts == old(totalTimeouts) + |timedOut|
    {
      ghost var before := clients;
      timedOut := {};
      var todo := clients.Keys;
      while todo != {}
        invariant todo <= before.Keys == clients.Keys
        invariant forall c :: c in before ==>
            clients[c] == if c in todo then before[c] else Checked(before, now, config.timeout)[c]
        invariant forall c :: c in timedOut <==> c in before && c !in todo && Expires(before, c, now, config.timeout)
        invariant totalTimeouts == old(totalTimeouts) + |timedOut|
        decreases todo
      {
        var c :| c in todo;
        if now - clients[c].lastPong > config.timeout {
          if clients[c].isAlive {
            clients := clients[c := clients[c].(isAlive := false, retryCount := clients[c].retryCount + 1)];
            totalTimeouts := totalTimeouts + 1;
            timedOut := timedOut + {c};
          }
        }
        todo := todo - {c};
      }
    }

    method EvictDead() returns (dead: set<string>)
      modifies this`clients
      ensures dead == set c | c in old(clients) && Dead(old(clients), c, config.maxRetries)
      ensures clients == Evicted(old(clients), config.maxRetries)
    {
      ghost var before := clients;
      dead := set c | c in clients && clients[c].retryCount > config.maxRetries;
      var todo := dead;
      while todo != {}
        invariant todo <= dead
        invariant clients == map c | c in before && (c !in dead || c in todo) :: before[c]
        decreases todo
      {
        var c :| c in todo;
        clients := clients - {c};
        todo := todo - {c};
      }
    }
  }

  // ----- Whole runs -----

  datatype Op =
    | DoRegister(client: string, lastEventId: Option<string>, now: real)
    | DoUnregister(client: string)
    | DoPong(client: string, now: real)
    | DoCheck(now: real)
    | DoEvict

  function Apply(k: Config, m: Clients, op: Op): Clients {
    match op
    case DoRegister(c, id, now) => m[c := NewBeat(id, now)]
    case DoUnregister(c) => m - {c}
    case DoPong(c, now) => Ponged(m, c, now)
    case DoCheck(now) => Checked(m, now, k.timeout)
    case DoEvict => Evicted(m, k.maxRetries)
  }

  function Run(k: Config, ops: seq<Op>): Clients {
    if ops == [] then map[] else Apply(k, Run(k, ops[..|ops| - 1]), ops[|ops| - 1])
  }

  predicate RetryInv(m: Clients) {
    forall c :: c in m ==> m[c].retryCount == if m[c].isAlive then 0 else 1
  }

  /** Retries do not accumulate: the count is 0 while alive and 1 once timed out. */
  lemma {:induction false} RetryCountIsLiveness(k: Config, ops: seq<Op>)
    ensures RetryInv(Run(k, ops))
  {
    if ops == [] {
    } else {
      RetryCountIsLiveness(k, ops[..|ops| - 1]);
    }
  }

  /** So `evict_dead` removes someone only with `max_retries` 0, and then exactly the timed-out clients. */
  lemma DeadIff(k: Config, ops: seq<Op>, c: string)
    ensures var m := Run(k, ops);
            Dead(m, c, k.maxRetries) <==> k.maxRetries == 0 && c in m && !m[c].isAlive
    ensures k.maxRetries > 0 ==> Evicted(Run(k, ops), k.maxRetries) == Run(k, ops)
  {
    RetryCountIsLiveness(k, ops);
  }

  predicate Revives(op: Op, c: string, maxRetries: nat) {
    || (op.DoRegister? && op.client == c)
    || op == DoUnregister(c)
    || (op.DoPong? && op.client == c)
    || (op.DoEvict? && maxRetries == 0)
  }

  /** The `i`th operation found the client silent for too long, and nothing since has changed that. */
  ghost predicate TimedOutAt(k: Config, ops: seq<Op>, i: nat, c: string) {
    && i < |ops| && ops[i].DoCheck? && Expires(Run(k, ops[..i]), c, ops[i].now, k.timeout)
    && forall j :: i < j < |ops| ==> !Revives(ops[j], c, k.maxRetries)
  }

  ghost predicate TimedOut(m: Clients, c: string) { c in m && !m[c].isAlive }

  lemma TimedOutStep(k: Config, m: Clients, op: Op, c: string)
    requires RetryInv(m)
    ensures TimedOut(Apply(k, m, op), c) <==>
              (op.DoCheck? && Expires(m, c, op.now, k.timeout)) || (TimedOut(m, c) && !Revives(op, c, k.maxRetries))
  {
  }

  lemma {:induction false} TimedOutIff(k: Config, ops: seq<Op>, c: string)
    ensures TimedOut(Run(k, ops), c) <==> exists i :: TimedOutAt(k, ops, i, c)
  {
    if ops == [] {
    } else {
      var n := |ops| - 1;
      var before, op := ops[..n], ops[n];
      TimedOutIff(k, before, c);
      RetryCountIsLiveness(k, before);
      TimedOutStep(k, Run(k, before), op, c);
      assert TimedOutAt(k, ops, n, c) <==> op.DoCheck? && Expires(Run(k, before), c, op.now, k.timeout);
      forall i: nat | i < n
        ensures TimedOutAt(k, ops, i, c) <==> TimedOutAt(k, before, i, c) && !Revives(op, c, k.maxRetries)
      {
        assert ops[..i] == before[..i];
        assert forall j :: 0 <= j < n ==> ops[j] == before[j];
      }
      if TimedOut(Run(k, ops), c) && !TimedOutAt(k, ops, n, c) {
        var i: nat :| TimedOutAt(k, before, i, c);
        assert TimedOutAt(k, ops, i, c);
      }
    }
  }

  // ----- One client's record, from the history -----

  /** What is known of a registered client: when it registered and with what, when it was last heard, and whether a
      check has found it silent since. */
  datatype Heard = Heard(since: real, lastEventId: Option<string>, at: real, silent: bool)

  function HeardOf(k: Config, ops: seq<Op>, c: string): Option<Heard> {
    if ops == [] then None
    else
      var before := HeardOf(k, ops[..|ops| - 1], c);
      match ops[|ops| - 1]
      case DoRegister(d, id, now) => if d == c then Some(Heard(now, id, now, false)) else before
      case DoUnregister(d) => if d == c then None else before
      case DoPong(d, now) =>
        if d == c && before.Some? then Some(before.value.(at := now, silent := false)) else before
      case DoCheck(now) =>
        if before.Some? && now - before.value.at > k.timeout then Some(before.value.(silent := true)) else before
      case DoEvict => if before.Some? && before.value.silent && k.maxRetries == 0 then None else before
  }

  /** The table holds exactly the registered clients, each with the times it registered and was last heard, and as not
      alive exactly those found silent since. */
  lemma {:induction false} TableIsHistory(k: Config, ops: seq<Op>, c: string)
    ensures var m, h := Run(k, ops), HeardOf(k, ops, c);
            && (c in m <==> h.Some?)
            && (c in m ==> m[c] == Beat(h.value.since, h.value.at, if h.value.silent then 1 else 0, !h.value.silent,
                                        h.value.lastEventId))
  {
    if ops == [] {
    } else {
      TableIsHistory(k, ops[..|ops| - 1], c);
    }
  }
}
