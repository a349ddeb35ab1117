/** `RealtimeBroadcast`: sending with a deduplication window, and subscribers that may lag.
    The underlying ring is a log of messages of which the last `capacity` can still be read. */
module Broadcast {
  import opened Wrappers

  datatype Policy = DropOldest | Error

  datatype Config = Config(capacity: nat, policy: Policy, dedupEnabled: bool, dedupWindow: nat)

  datatype Inner = Inner(
    log: seq<string>, receivers: nat, recentIds: seq<string>, sent: nat, dropped: nat, deduped: nat)

  datatype Outcome = Reached(receivers: nat) | RuntimeError | KeyError

  function LastN(s: seq<string>, n: nat): seq<string> {
    if |s| <= n then s else s[|s| - n..]
  }

  // ----- A channel as a value -----

  predicate Skips(k: Config, recent: seq<string>, id: Option<string>) {
    k.dedupEnabled && id.Some? && id.value in recent
  }

  /** Without a receiver the ring keeps nothing. */
  function Logged(b: Inner, message: string): seq<string> {
    if b.receivers == 0 then b.log else b.log + [message]
  }

  function SentTo(k: Config, b: Inner, message: string, id: Option<string>): (Inner, Outcome) {
    if Skips(k, b.recentIds, id) then (b.(deduped := b.deduped + 1), Reached(0))
    else
      var b := b.(recentIds := if k.dedupEnabled && id.Some? then LastN(b.recentIds + [id.value], k.dedupWindow)
                               else b.recentIds,
                  sent := b.sent + 1, log := Logged(b, message));
      if b.receivers > 0 then (b, Reached(b.receivers))
      else if k.policy == Error then (b, RuntimeError)
      else (b.(dropped := b.dropped + 1), Reached(0))
  }

  /** One channel's share of `send_many`: no deduplication, no error. */
  function SentPlain(b: Inner, message: string): Inner {
    b.(sent := b.sent + 1, log := Logged(b, message))
  }

  class BroadcastChannel {
    const config: Config
    var log: seq<string>
    var receivers: nat
    var recentIds: seq<string>
    var totalSent: nat
    var totalDropped: nat
    var totalDeduped: nat

    function Value(): Inner
      reads this
    {
      Inner(log, receivers, recentIds, totalSent, totalDropped, totalDeduped)
    }

    constructor (config: Config)
      ensures this.config == config && Value() == Inner([], 0, [], 0, 0, 0)
    {
      this.config := config;
      log, receivers, recentIds := [], 0, [];
      totalSent, totalDropped, totalDeduped := 0, 0, 0;
    }

    method Send(message: string, id: Option<string>) returns (outcome: Outcome)
      modifies this
      ensures (Value(), outcome) == SentTo(config, old(Value()), message, id)
    {
      if config.dedupEnabled {
        if id.Some? {
          if id.value in recentIds {
            totalDeduped := totalDeduped + 1;
            return Reached(0);
          }
          recentIds := recentIds + [id.value];
          if |recentIds| > config.dedupWindow {
            var excess := |recentIds| - config.dedupWindow;
            recentIds := recentIds[excess..];
          }
        }
      }
      totalSent := totalSent + 1;
      if receivers > 0 {
        log := log + [message];
        return Reached(receivers);
      }
      match config.policy {
        case Error => return RuntimeError;
        case DropOldest =>
          totalDropped := totalDropped + 1;
          return Reached(0);
      }
    }

    method SendUnchecked(message: string) returns (count: nat)
      modifies this
      ensures Value() == SentPlain(old(Value()), message) && count == old(receivers)
    {
      totalSent := totalSent + 1;
      if receivers > 0 {
        log := log + [message];
      }
      count := receivers;
    }

    method Subscribe() returns (s: BroadcastSubscriber)
      modifies this
      ensures fresh(s) && s.channel == this && s.Value() == Reader(|log|, 0, 0)
      ensures Value() == old(Value()).(receivers := old(receivers) + 1)
    {
      receivers := receivers + 1;
      s := new BroadcastSubscriber(this);
    }
  }

  class RealtimeBroadcast {
    var channels: map<string, BroadcastChannel>

    /** Different names, different channels. */
    ghost predicate Valid()
      reads this
    {
      forall m, n :: m in channels && n in channels && m != n ==> channels[m] != channels[n]
    }

    constructor ()
      ensures Valid() && channels == map[]
    {
      channels := map[];
    }

    method Create(name: string, config: Config) returns (created: bool)
      requires Valid()
      modifies this
      ensures Valid() && created == (name !in old(channels))
      ensures if !created then channels == old(channels)
              else name in channels && fresh(channels[name]) && channels == old(channels)[name := channels[name]]
      ensures created ==> channels[name].config == config && channels[name].Value() == NEW
    {
      if name in channels {
        return false;
      }
      var c := new BroadcastChannel(config);
      channels := channels[name := c];
      return true;
    }

    /** A missing channel raises; an existing one does what its own `Send` does, and no other changes. */
    method Send(name: string, message: string, id: Option<string>) returns (outcome: Outcome)
      requires Valid()
      modifies if name in channels then {channels[name]} else {}
      ensures Valid()
      ensures name !in channels ==> outcome == KeyError
      ensures name in channels ==>
                (channels[name].Value(), outcome) ==
                    SentTo(channels[name].config, old(channels[name].Value()), message, id)
      ensures forall n :: n in channels && n != name ==> channels[n].Value() == old(channels[n].Value())
    {
      if name !in channels {
        return KeyError;
      }
      outcome := channels[name].Send(message, id);
    }
  }

  // ----- A subscriber as a value -----

  datatype Reader = Reader(next: nat, received: nat, lagged: nat)

  /** The position the ring lets a reader continue from. */
  function Oldest(size: nat, next: nat, capacity: nat): (p: nat)
    requires next <= size
  {
    if size - next > capacity then size - capacity else next
  }

  function Got(log: seq<string>, r: Reader, capacity: nat): Reader
    requires r.next <= |log|
  {
    if r.next == |log| then r
    else
      var p := Oldest(|log|, r.next, capacity);
      Reader(p + 1, r.received + 1, r.lagged + p - r.next)
  }

  function Drained(log: seq<string>, r: Reader, capacity: nat): Reader
    requires r.next <= |log|
  {
    var p := Oldest(|log|, r.next, capacity);
    Reader(|log|, r.received + |log| - p, r.lagged + p - r.next)
  }

  /** The ring's own non-blocking receive. */
  datatype RawResult = Message(text: string) | Empty | Lagged(n: nat)

  class BroadcastSubscriber {
    const channel: BroadcastChannel
    var next: nat
    var received: nat
    var lagged: nat

    function Value(): Reader
      reads this
    {
      Reader(next, received, lagged)
    }

    constructor (channel: BroadcastChannel)
      ensures this.channel == channel && Value() == Reader(|channel.log|, 0, 0)
    {
      this.channel := channel;
      next, received, lagged := |channel.log|, 0, 0;
    }

    method RawReceive() returns (r: RawResult)
      requires next <= |channel.log|
      modifies this`next
      ensures r == if old(next) == |channel.log| then Empty
                   else if |channel.log| - old(next) > channel.config.capacity
                       then Lagged(|channel.log| - channel.config.capacity - old(next))
                   else Message(channel.log[old(next)])
      ensures next == match r case Empty => old(next) case Lagged(n) => old(next) + n case Message(_) => old(next) + 1
    {
      if next == |channel.log| {
        return Empty;
      }
      if |channel.log| - next > channel.config.capacity {
        r := Lagged(|channel.log| - channel.config.capacity - next);
        next := |channel.log| - channel.config.capacity;
        return;
      }
      r := Message(channel.log[next]);
      next := next + 1;
    }

    /** The oldest message still readable; nothing only if everything was read. */
    method TryRecv() returns (message: Option<string>)
      requires next <= |channel.log| && channel.config.capacity >= 1
      modifies this
      ensures Value() == Got(channel.log, old(Value()), channel.config.capacity)
      ensures message == if old(next) == |channel.log| then None
                         else Some(channel.log[Oldest(|channel.log|, old(next), channel.config.capacity)])
    {
      var r := RawReceive();
      match r {
        case Message(text) =>
          received := received + 1;
          return Some(text);
        case Empty => return None;
        case Lagged(n) =>
          lagged := lagged + n;
          var again := RawReceive();
          match again {
            case Message(text) =>
              received := received + 1;
              return Some(text);
            case _ => return None;
          }
      }
    }

    /** Everything still readable, in order. */
    method Drain() returns (messages: seq<string>)
      requires next <= |channel.log| && channel.config.capacity >= 1
      modifies this
      ensures Value() == Drained(channel.log, old(Value()), channel.config.capacity)
      ensures messages == channel.log[Oldest(|channel.log|, old(next), channel.config.capacity)..]
    {
      messages := [];
      ghost var first := Oldest(|channel.log|, next, channel.config.capacity);
      var done := false;
      while !done
        invariant next <= |channel.log|
        invariant next == old(next) && next < first ==> Value() == old(Value()) && messages == []
        invariant next >= first || next == old(next)
        invariant next >= first ==> messages == channel.log[first..next]
        invariant next >= first ==> received == old(received) + (next - first)
        invariant next >= first ==> lagged == old(lagged) + (first - old(next))
        invariant done ==> next == |channel.log|
        decreases !done, |channel.log| - next
      {
        var r := RawReceive();
        match r {
          case Message(text) =>
            received := received + 1;
            messages := messages + [text];
          case Lagged(n) => lagged := lagged + n;
          case Empty => done := true;
        }
      }
    }
  }

  // ----- Deduplication over whole runs -----

  datatype Op =
    | Send(message: string, id: Option<string>)
    | SendPlain(message: string)
    | Subscribe
    | Drop

  function Apply(k: Config, b: Inner, op: Op): Inner {
    match op
    case Send(message, id) => SentTo(k, b, message, id).0
    case SendPlain(message) => SentPlain(b, message)
    case Subscribe => b.(receivers := b.receivers + 1)
    case Drop => if b.receivers > 0 then b.(receivers := b.receivers - 1) else b
  }

  const NEW := Inner([], 0, [], 0, 0, 0)

  function Run(k: Config, b: Inner, ops: seq<Op>): Inner {
    if ops == [] then b else Apply(k, Run(k, b, ops[..|ops| - 1]), ops[|ops| - 1])
  }

  predicate HasId(op: Op) { op.Send? && op.id.Some? }

  /** The ids accepted so far: an id is, unless it is among the last `window` accepted ones. */
  function AcceptedIds(window: nat, ops: seq<Op>): seq<string> {
    if ops == [] then []
    else
      var before, op := AcceptedIds(window, ops[..|ops| - 1]), ops[|ops| - 1];
      if HasId(op) && op.id.value !in LastN(before, window) then before + [op.id.value] else before
  }

  lemma LastNAppend(s: seq<string>, x: string, n: nat)
    ensures LastN(LastN(s, n) + [x], n) == LastN(s + [x], n)
  {
  }

  lemma InLastN(s: seq<string>, i: nat, n: nat)
    requires i < |s|
    ensures |s| - i <= n ==> s[i] in LastN(s, n)
  {
    assert |s| > n >= |s| - i ==> s[i] == LastN(s, n)[i - (|s| - n)];
  }

  /** The window holds the last accepted ids. */
  lemma {:induction false} WindowIsHistory(k: Config, ops: seq<Op>)
    requires k.dedupEnabled
    ensures Run(k, NEW, ops).recentIds == LastN(AcceptedIds(k.dedupWindow, ops), k.dedupWindow)
  {
    if ops == [] {
    } else {
      var before, op := ops[..|ops| - 1], ops[|ops| - 1];
      WindowIsHistory(k, before);
      if HasId(op) {
        LastNAppend(AcceptedIds(k.dedupWindow, before), op.id.value, k.dedupWindow);
      }
    }
  }

  /** A send with an id is skipped exactly if deduplication is on and the id is among the last
      `dedup_window` accepted ids; then it changes nothing but the counter. */
  lemma {:induction false} SkippedIff(k: Config, ops: seq<Op>, message: string, id: Option<string>)
    ensures var b := Run(k, NEW, ops);
            var (after, outcome) := SentTo(k, b, message, id);
            var skipped := k.dedupEnabled && id.Some? &&
                id.value in LastN(AcceptedIds(k.dedupWindow, ops), k.dedupWindow);
            && (skipped <==> after.deduped == b.deduped + 1)
            && (skipped <==> after.sent == b.sent)
            && (skipped ==> after == b.(deduped := b.deduped + 1) && outcome == Reached(0))
  {
    if k.dedupEnabled {
      WindowIsHistory(k, ops);
    }
  }

  /** Two accepted occurrences of an id have at least `window` other accepted ids between them. */
  lemma {:induction false} RepeatsAreFarApart(window: nat, ops: seq<Op>, i: nat, j: nat)
    requires i < j < |AcceptedIds(window, ops)| && AcceptedIds(window, ops)[i] == AcceptedIds(window, ops)[j]
    ensures j - i > window
  {
    var before := AcceptedIds(window, ops[..|ops| - 1]);
    if j < |before| {
      RepeatsAreFarApart(window, ops[..|ops| - 1], i, j);
    } else {
      InLastN(before, i, window);
    }
  }

  predicate IsSend(op: Op) { op.Send? || op.SendPlain? }

  function Sends(ops: seq<Op>): nat {
    if ops == [] then 0 else Sends(ops[..|ops| - 1]) + if IsSend(ops[|ops| - 1]) then 1 else 0
  }

  /** Every send is counted once, as sent or as skipped, and only a sent one as dropped. */
  lemma {:induction false} SendsAreCounted(k: Config, ops: seq<Op>)
    ensures var b := Run(k, NEW, ops);
            b.sent + b.deduped == Sends(ops) && |b.log| + b.dropped <= b.sent
  {
    if ops == [] {
    } else {
      SendsAreCounted(k, ops[..|ops| - 1]);
    }
  }

  // ----- The channel, from the history -----

  /** How many are subscribed. */
  function Subscribers(ops: seq<Op>): nat {
    if ops == [] then 0
    else
      var before := Subscribers(ops[..|ops| - 1]);
      match ops[|ops| - 1]
      case Subscribe => before + 1
      case Drop => if before > 0 then before - 1 else 0
      case _ => before
  }

  predicate Repeated(k: Config, ops: seq<Op>, id: Option<string>) {
    k.dedupEnabled && id.Some? && id.value in LastN(AcceptedIds(k.dedupWindow, ops), k.dedupWindow)
  }

  /** The operation is a send that is not skipped. */
  predicate Accepts(k: Config, ops: seq<Op>, op: Op) {
    op.SendPlain? || (op.Send? && !Repeated(k, ops, op.id))
  }

  /** The messages that reached someone, in order. */
  function Delivered(k: Config, ops: seq<Op>): seq<string> {
    if ops == [] then []
    else
      var before, op := ops[..|ops| - 1], ops[|ops| - 1];
      Delivered(k, before) + if Accepts(k, before, op) && Subscribers(before) > 0 then [op.message] else []
  }

  /** How many sends reached nobody and were dropped for that. */
  function DroppedSends(k: Config, ops: seq<Op>): nat {
    if ops == [] then 0
    else
      var before, op := ops[..|ops| - 1], ops[|ops| - 1];
      DroppedSends(k, before) +
      if op.Send? && Accepts(k, before, op) && Subscribers(before) == 0 && k.policy == DropOldest then 1 else 0
  }

  function AcceptedSends(k: Config, ops: seq<Op>): nat {
    if ops == [] then 0
    else AcceptedSends(k, ops[..|ops| - 1]) + if Accepts(k, ops[..|ops| - 1], ops[|ops| - 1]) then 1 else 0
  }

  lemma {:induction false} ChannelIsHistory(k: Config, ops: seq<Op>)
    ensures var b := Run(k, NEW, ops);
            && b.log == Delivered(k, ops) && b.receivers == Subscribers(ops) && b.dropped == DroppedSends(k, ops)
            && b.sent == AcceptedSends(k, ops)
  {
    if ops == [] {
    } else {
      var before, op := ops[..|ops| - 1], ops[|ops| - 1];
      ChannelIsHistory(k, before);
      if k.dedupEnabled {
        WindowIsHistory(k, before);
      }
      assert Delivered(k, before) + [] == Delivered(k, before);
    }
  }

  /** What a send answers: nothing for a repeated id, otherwise the number of subscribers, and without any an error or
      nothing, by the policy. */
  lemma OutcomeIs(k: Config, ops: seq<Op>, message: string, id: Option<string>)
    ensures SentTo(k, Run(k, NEW, ops), message, id).1 ==
              if Repeated(k, ops, id) then Reached(0)
              else if Subscribers(ops) > 0 then Reached(Subscribers(ops))
              else if k.policy == Error then RuntimeError else Reached(0)
  {
    ChannelIsHistory(k, ops);
    if k.dedupEnabled {
      WindowIsHistory(k, ops);
    }
  }

  /** Of the unread messages a receive passes over exactly those with `capacity` or more newer ones. */
  lemma PassedOverIff(size: nat, next: nat, capacity: nat, q: nat)
    requires next <= q < size
    ensures next <= Oldest(size, next, capacity) && (q < Oldest(size, next, capacity) <==> size - q > capacity)
  {
  }

  // ----- One subscriber over whole runs -----

  /** What happens after the subscription: anything on the channel, or a receive. */
  datatype Act = OnChannel(op: Op) | TryReceive | DrainAll

  /** The channel, the reader, and the positions of the messages it got. */
  datatype World = World(b: Inner, r: Reader, positions: seq<nat>)

  function Range(from: nat, to: nat): (s: seq<nat>)
    requires from <= to
    ensures |s| == to - from && forall i :: 0 <= i < |s| ==> s[i] == from + i
  {
    seq(to - from, i requires 0 <= i < to - from => from + i)
  }

  /** The reader itself stays subscribed, so the last receiver is never dropped. */
  function Act1(k: Config, w: World, a: Act): World
    requires w.r.next <= |w.b.log|
  {
    match a
    case OnChannel(op) => if op == Drop && w.b.receivers <= 1 then w else w.(b := Apply(k, w.b, op))
    case TryReceive =>
      w.(r := Got(w.b.log, w.r, k.capacity),
         positions := if w.r.next == |w.b.log| then w.positions
                      else w.positions + [Oldest(|w.b.log|, w.r.next, k.capacity)])
    case DrainAll =>
      w.(r := Drained(w.b.log, w.r, k.capacity),
         positions := w.positions + Range(Oldest(|w.b.log|, w.r.next, k.capacity), |w.b.log|))
  }

  function Start(b: Inner): World {
    World(b.(receivers := b.receivers + 1), Reader(|b.log|, 0, 0), [])
  }

  ghost predicate Increasing(s: seq<nat>, from: nat, to: nat) {
    && (forall i :: 0 <= i < |s| ==> from <= s[i] < to)
    && forall i, j :: 0 <= i < j < |s| ==> s[i] < s[j]
  }

  ghost predicate ReaderInv(b: Inner, w: World) {
    && w.b.receivers >= 1
    && b.log <= w.b.log
    && w.b.sent - b.sent == |w.b.log| - |b.log|
    && |b.log| <= w.r.next <= |w.b.log|
    && w.r.received + w.r.lagged == w.r.next - |b.log|
    && |w.positions| == w.r.received
    && Increasing(w.positions, |b.log|, w.r.next)
  }

  lemma ActInv(k: Config, b: Inner, w: World, a: Act)
    requires k.capacity >= 1 && ReaderInv(b, w)
    ensures ReaderInv(b, Act1(k, w, a))
  {
  }

  ghost predicate Next(k: Config, w: World, a: Act, w': World) {
    w.r.next <= |w.b.log| && w' == Act1(k, w, a)
  }

  ghost predicate Path(k: Config, b: Inner, acts: seq<Act>, path: seq<World>) {
    && |path| == |acts| + 1 && path[0] == Start(b)
    && forall i :: 0 <= i < |acts| ==> Next(k, path[i], acts[i], path[i + 1])
  }

  lemma {:induction false} PathInv(k: Config, b: Inner, acts: seq<Act>, path: seq<World>, i: nat)
    requires k.capacity >= 1 && Path(k, b, acts, path) && i < |path|
    ensures ReaderInv(b, path[i])
  {
    if i == 0 {
    } else {
      PathInv(k, b, acts, path, i - 1);
      ActInv(k, b, path[i - 1], acts[i - 1]);
      assert Next(k, path[i - 1], acts[i - 1], path[i - 1 + 1]);
    }
  }

  function Readable(k: Config, w: World): nat
    requires w.r.next <= |w.b.log|
  {
    |w.b.log| - Oldest(|w.b.log|, w.r.next, k.capacity)
  }

  function Overwritten(k: Config, w: World): nat
    requires w.r.next <= |w.b.log|
  {
    Oldest(|w.b.log|, w.r.next, k.capacity) - w.r.next
  }

  /** Messages are conserved: those sent since the subscription were received, reported as missed, are still
      readable, or were overwritten and not yet reported, of which there are none right after a receive.
      The receipts are an in-order subsequence of the messages sent since. */
  lemma MessagesAreConserved(k: Config, b: Inner, acts: seq<Act>, path: seq<World>, i: nat)
    requires k.capacity >= 1 && Path(k, b, acts, path) && i < |path|
    ensures var w := path[i];
            && |b.log| <= w.r.next <= |w.b.log|
            && w.r.received + w.r.lagged + Readable(k, w) + Overwritten(k, w) == w.b.sent - b.sent
            && (i > 0 && !acts[i - 1].OnChannel? ==> Overwritten(k, w) == 0)
            && |w.positions| == w.r.received
            && Increasing(w.positions, |b.log|, |w.b.log|)
  {
    PathInv(k, b, acts, path, i);
    if i > 0 {
      PathInv(k, b, acts, path, i - 1);
      assert Next(k, path[i - 1], acts[i - 1], path[i - 1 + 1]);
    }
  }

  /** Every receive so far found no more unread messages than the ring holds. */
  ghost predicate Prompt(k: Config, acts: seq<Act>, path: seq<World>, n: nat)
    requires n <= |acts| && |path| == |acts| + 1
  {
    forall i :: 0 <= i < n && !acts[i].OnChannel? ==> |path[i].b.log| - path[i].r.next <= k.capacity
  }

  /** Nothing is missed exactly if every receive comes in time, and then all messages up to the last
      one received arrive. */
  lemma {:induction false} NothingMissedIff(k: Config, b: Inner, acts: seq<Act>, path: seq<World>, n: nat)
    requires k.capacity >= 1 && Path(k, b, acts, path) && n <= |acts|
    ensures path[n].r.lagged == 0 <==> Prompt(k, acts, path, n)
    ensures path[n].r.lagged == 0 ==> path[n].r.next >= |b.log| && path[n].positions == Range(|b.log|, path[n].r.next)
  {
    PathInv(k, b, acts, path, n);
    if n == 0 {
    } else {
      NothingMissedIff(k, b, acts, path, n - 1);
      PathInv(k, b, acts, path, n - 1);
      assert Next(k, path[n - 1], acts[n - 1], path[n - 1 + 1]);
    }
  }
}
