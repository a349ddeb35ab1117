/** `RealtimeHub`: channels, topic patterns, presence and heartbeats driven together. */
module Hub {
  import opened Wrappers
  import C = Channels
  import P = Presence
  import H = Heartbeat

  datatype State = State(channels: C.Manager, presence: P.Tracker, monitored: H.Clients)

  const EMPTY := State(C.Manager(map[], map[]), P.EMPTY, map[])

  // ----- The hub as a value -----

  datatype Op =
    | Create(channel: string)
    | Join(channel: string, client: string, metadata: map<string, string>, now: real)
    | Leave(channel: string, client: string)
    | Disconnect(client: string)
    | ReadDiff(channel: string)

  function ExitedAll(m: C.Manager, list: seq<string>, c: string): C.Manager {
    if list == [] then m else C.Exited(ExitedAll(m, list[..|list| - 1], c), list[|list| - 1], c)
  }

  ghost function Apply(s: State, op: Op): State {
    match op
    case Create(ch) => s.(channels := C.Opened(s.channels, ch))
    case Join(ch, c, metadata, now) =>
      if ch !in s.channels.subscribers then s
      else
        State(C.Entered(s.channels, ch, c),
              P.Apply(s.presence, P.Join(P.Info(c, ch, metadata, now, now))),
              s.monitored[c := H.NewBeat(None, now)])
    case Leave(ch, c) =>
      State(C.Exited(s.channels, ch, c), P.Run(s.presence, [P.Depart(ch, c), P.Clean(ch)]), s.monitored - {c})
    case Disconnect(c) =>
      var list := P.Listed(s.presence.clients, c);
      State(ExitedAll(s.channels, list, c),
            P.Tracker(P.LeftAll(s.presence.channels, P.Places(list, c)), s.presence.clients - {c}),
            s.monitored - {c})
    case ReadDiff(ch) => s.(presence := P.Apply(s.presence, P.Flush(ch)))
  }

  class RealtimeHub {
    const channels: C.ChannelManager
    const presence: P.PresenceTracker
    const heartbeat: H.HeartbeatMonitor

    ghost function Value(): State
      reads channels, channels.topicMatcher, presence, heartbeat
    {
      State(channels.Value(), presence.Value(), heartbeat.clients)
    }

    constructor (config: H.Config)
      ensures Value() == EMPTY
      ensures fresh(channels) && fresh(channels.topicMatcher) && fresh(presence) && fresh(heartbeat)
    {
      channels := new C.ChannelManager();
      presence := new P.PresenceTracker();
      heartbeat := new H.HeartbeatMonitor(config);
    }

    method CreateChannel(name: string)
      modifies channels
      ensures Value() == Apply(old(Value()), Create(name))
    {
      var _ := channels.CreateChannel(name);
    }

    method Join(channel: string, client: string, metadata: map<string, string>, now: real) returns (status: C.Status)
      modifies channels, channels.topicMatcher, presence, heartbeat
      ensures status == if channel in old(channels.subscribers) then C.Done else C.KeyError
      ensures Value() == Apply(old(Value()), Op.Join(channel, client, metadata, now))
    {
      status := channels.Subscribe(channel, client);
      if status == C.KeyError {
        return;
      }
      var _ := presence.Track(channel, client, metadata, now);
      heartbeat.Register(client, None, now);
    }

    method Leave(channel: string, client: string)
      modifies channels, channels.topicMatcher, presence, heartbeat
      ensures Value() == Apply(old(Value()), Op.Leave(channel, client))
    {
      var _ := channels.Unsubscribe(channel, client);
      var _ := presence.Untrack(channel, client);
      var _ := heartbeat.Unregister(client);
    }

    method Disconnect(client: string) returns (list: seq<string>)
      modifies channels, channels.topicMatcher, presence, heartbeat
      ensures list == P.Listed(old(presence.clients), client)
      ensures Value() == Apply(old(Value()), Op.Disconnect(client))
    {
      list := presence.UntrackAll(client);
      for i := 0 to |list|
        invariant channels.Value() == ExitedAll(old(channels.Value()), list[..i], client)
        invariant presence.Value() == Apply(old(Value()), Op.Disconnect(client)).presence
        invariant heartbeat.clients == old(heartbeat.clients)
      {
        assert list[..i + 1][..i] == list[..i];
        var _ := channels.Unsubscribe(list[i], client);
      }
      assert list[..|list|] == list;
      var _ := heartbeat.Unregister(client);
    }

    method GetPresenceDiff(channel: string) returns (diff: P.Diff)
      modifies presence
      ensures diff == P.Pending(old(presence.Value()), channel)
      ensures Value() == Apply(old(Value()), ReadDiff(channel))
    {
      diff := presence.FlushDiff(channel);
    }
  }

  // ----- The tables agree -----

  ghost predicate In(s: State, ch: string, c: string) { P.Present(s.presence, ch, c) }

  ghost predicate Agree(s: State) {
    && (forall ch, c :: C.InChannel(s.channels, ch, c) <==> In(s, ch, c))
    && (forall ch, c :: C.Subscribed(s.channels.patterns, ch, c) <==> In(s, ch, c))
    && C.NoEmptyPattern(s.channels.patterns)
    && P.IndexInv(s.presence)
  }

  ghost predicate MonitoredAreMembers(s: State) {
    forall c :: c in s.monitored ==> exists ch :: In(s, ch, c)
  }

  ghost predicate Inv(s: State) { Agree(s) && MonitoredAreMembers(s) }

  /** The operation takes the client out of the channel. */
  predicate Ends(op: Op, ch: string, c: string) { op == Leave(ch, c) || op == Disconnect(c) }

  predicate Enters(s: State, op: Op, ch: string, c: string) {
    op.Join? && op.channel == ch && op.client == c && ch in s.channels.subscribers
  }

  lemma ExitedIs(m: C.Manager, x: string, c: string, ch: string, d: string)
    requires C.NoEmptyPattern(m.patterns)
    ensures var after := C.Exited(m, x, c);
            && (C.InChannel(after, ch, d) <==> C.InChannel(m, ch, d) && !(d == c && ch == x))
            && (C.Subscribed(after.patterns, ch, d) <==> C.Subscribed(m.patterns, ch, d) && !(d == c && ch == x))
            && after.subscribers.Keys == m.subscribers.Keys
            && C.NoEmptyPattern(after.patterns)
  {
    if x in m.patterns {
      assert d in m.patterns[x] - {c} <==> d in m.patterns[x] && d != c;
    }
  }

  lemma {:induction false} ExitedAllIs(m: C.Manager, list: seq<string>, c: string, ch: string, d: string)
    requires C.NoEmptyPattern(m.patterns)
    ensures var after := ExitedAll(m, list, c);
            && (C.InChannel(after, ch, d) <==> C.InChannel(m, ch, d) && !(d == c && ch in list))
            && (C.Subscribed(after.patterns, ch, d) <==> C.Subscribed(m.patterns, ch, d) && !(d == c && ch in list))
            && after.subscribers.Keys == m.subscribers.Keys
            && C.NoEmptyPattern(after.patterns)
  {
    if list == [] {
    } else {
      assert list == list[..|list| - 1] + [list[|list| - 1]];
      ExitedAllIs(m, list[..|list| - 1], c, ch, d);
      ExitedIs(ExitedAll(m, list[..|list| - 1], c), list[|list| - 1], c, ch, d);
    }
  }

  /** What an operation does to one client's place in one channel, in each of the three tables. */
  lemma ApplyChanges(s: State, op: Op, ch: string, c: string)
    requires Agree(s)
    ensures var after := Apply(s, op);
            var now := Enters(s, op, ch, c) || (In(s, ch, c) && !Ends(op, ch, c));
            && (In(after, ch, c) <==> now)
            && (C.InChannel(after.channels, ch, c) <==> now)
            && (C.Subscribed(after.channels.patterns, ch, c) <==> now)
            && C.NoEmptyPattern(after.channels.patterns)
  {
    match op {
      case Create(_) =>
      case Join(d, e, metadata, now) =>
        P.StepPresence(s.presence, P.Join(P.Info(e, d, metadata, now, now)), ch, c);
      case Leave(d, e) =>
        P.RunTwo(s.presence, P.Depart(d, e), P.Clean(d));
        P.StepPresence(s.presence, P.Depart(d, e), ch, c);
        P.StepPresence(P.Apply(s.presence, P.Depart(d, e)), P.Clean(d), ch, c);
      case Disconnect(e) =>
        var list := P.Listed(s.presence.clients, e);
        ExitedAllIs(s.channels, list, e, ch, c);
        P.LeftAllMembers(s.presence.channels, P.Places(list, e), ch, c);
        InPlaces(list, e, ch, c);
        assert ch in P.Listed(s.presence.clients, c) <==> In(s, ch, c);
      case ReadDiff(d) => P.StepPresence(s.presence, P.Flush(d), ch, c);
    }
  }

  lemma InPlaces(list: seq<string>, e: string, ch: string, c: string)
    ensures (ch, c) in P.Places(list, e) <==> ch in list && c == e
  {
    if ch in list && c == e {
      var i :| 0 <= i < |list| && list[i] == ch;
      assert P.Places(list, e)[i] == (ch, c);
    }
  }

  /** Every operation is a run of the presence tracker's steps. */
  lemma PresenceMoves(s: State, op: Op)
    requires P.IndexInv(s.presence)
    ensures exists steps: seq<P.Step> :: Apply(s, op).presence == P.Run(s.presence, steps)
  {
    match op {
      case Create(_) => assert P.Run(s.presence, []) == s.presence;
      case Join(d, e, metadata, now) =>
        RunOne(s.presence, P.Join(P.Info(e, d, metadata, now, now)));
        assert P.Run(s.presence, []) == s.presence;
      case Leave(d, e) => assert Apply(s, op).presence == P.Run(s.presence, [P.Depart(d, e), P.Clean(d)]);
      case Disconnect(e) =>
        P.DisconnectIsDepartures(s.presence, e);
      case ReadDiff(d) => RunOne(s.presence, P.Flush(d));
    }
  }

  lemma RunOne(t: P.Tracker, step: P.Step)
    ensures P.Run(t, [step]) == P.Apply(t, step)
  {
    assert [step][..0] == [];
    assert P.Run(t, []) == t;
  }

  lemma AgreeStep(s: State, op: Op)
    requires Agree(s)
    ensures Agree(Apply(s, op))
  {
    PresenceMoves(s, op);
    var steps: seq<P.Step> :| Apply(s, op).presence == P.Run(s.presence, steps);
    P.IndexRun(s.presence, steps);
    ApplyChanges(s, op, "", "");
    forall ch, c
      ensures C.InChannel(Apply(s, op).channels, ch, c) <==> In(Apply(s, op), ch, c)
      ensures C.Subscribed(Apply(s, op).channels.patterns, ch, c) <==> In(Apply(s, op), ch, c)
    {
      ApplyChanges(s, op, ch, c);
    }
  }

  lemma MonitoredStep(s: State, op: Op)
    requires Inv(s)
    ensures MonitoredAreMembers(Apply(s, op))
  {
    forall c | c in Apply(s, op).monitored
      ensures exists ch :: In(Apply(s, op), ch, c)
    {
      MonitoredChanges(s, op, c);
      if Registers(s, op, c) {
        ApplyChanges(s, op, op.channel, c);
      } else {
        var ch :| In(s, ch, c);
        ApplyChanges(s, op, ch, c);
      }
    }
  }

  ghost function Run(ops: seq<Op>): State {
    if ops == [] then EMPTY else Apply(Run(ops[..|ops| - 1]), ops[|ops| - 1])
  }

  lemma {:induction false} RunInv(ops: seq<Op>)
    ensures Inv(Run(ops))
  {
    if ops == [] {
    } else {
      RunInv(ops[..|ops| - 1]);
      AgreeStep(Run(ops[..|ops| - 1]), ops[|ops| - 1]);
      MonitoredStep(Run(ops[..|ops| - 1]), ops[|ops| - 1]);
    }
  }

  /** After any operations the subscribers of a channel, the clients of the pattern named like it and
      its presence members are the same set. */
  lemma SameSets(ops: seq<Op>, ch: string)
    ensures var s := Run(ops);
            var members := if ch in s.presence.channels then s.presence.channels[ch].members.Keys else {};
            && (if ch in s.channels.subscribers then s.channels.subscribers[ch] else {}) == members
            && (if ch in s.channels.patterns then s.channels.patterns[ch] else {}) == members
  {
    RunInv(ops);
    var s := Run(ops);
    var members := if ch in s.presence.channels then s.presence.channels[ch].members.Keys else {};
    assert forall c :: c in members <==> In(s, ch, c);
    assert forall c :: c in (if ch in s.channels.subscribers then s.channels.subscribers[ch] else {}) <==>
        C.InChannel(s.channels, ch, c);
    assert forall c :: c in (if ch in s.channels.patterns then s.channels.patterns[ch] else {}) <==>
        C.Subscribed(s.channels.patterns, ch, c);
  }

  // ----- Membership and monitoring, from the history -----

  ghost predicate Created(ops: seq<Op>, ch: string, before: nat) {
    before <= |ops| && Create(ch) in ops[..before]
  }

  lemma {:induction false} ChannelsAreCreated(ops: seq<Op>, ch: string)
    ensures ch in Run(ops).channels.subscribers <==> Created(ops, ch, |ops|)
  {
    assert ops[..|ops|] == ops;
    if ops == [] {
    } else {
      var before, op := ops[..|ops| - 1], ops[|ops| - 1];
      assert ops == before + [op] && before[..|before|] == before;
      ChannelsAreCreated(before, ch);
      RunInv(before);
      if op.Disconnect? {
        ExitedAllIs(Run(before).channels, P.Listed(Run(before).presence.clients, op.client), op.client, ch, "");
      }
    }
  }

  /** The `i`th operation brought the client into the channel, and none since took it out. */
  ghost predicate JoinedAt(ops: seq<Op>, i: nat, ch: string, c: string) {
    && i < |ops| && ops[i].Join? && ops[i].channel == ch && ops[i].client == c && Created(ops, ch, i)
    && forall j :: i < j < |ops| ==> !Ends(ops[j], ch, c)
  }

  lemma JoinedAtGrows(before: seq<Op>, op: Op, i: nat, ch: string, c: string)
    ensures JoinedAt(before + [op], i, ch, c) <==>
              if i == |before| then op.Join? && op.channel == ch && op.client == c && Created(before, ch, i)
              else JoinedAt(before, i, ch, c) && !Ends(op, ch, c)
  {
    var ops := before + [op];
    if i <= |before| {
      assert ops[..i] == before[..i];
    }
    assert ops[|before|] == op && forall j :: 0 <= j < |before| ==> ops[j] == before[j];
  }

  lemma {:induction false} MemberIff(ops: seq<Op>, ch: string, c: string)
    ensures In(Run(ops), ch, c) <==> exists i :: JoinedAt(ops, i, ch, c)
  {
    if ops == [] {
    } else {
      var n := |ops| - 1;
      var before, op := ops[..n], ops[n];
      assert ops == before + [op];
      MemberIff(before, ch, c);
      RunInv(before);
      ApplyChanges(Run(before), op, ch, c);
      ChannelsAreCreated(before, ch);
      forall i: nat
        ensures JoinedAt(ops, i, ch, c) <==>
                  if i == n then Enters(Run(before), op, ch, c) else JoinedAt(before, i, ch, c) && !Ends(op, ch, c)
      {
        JoinedAtGrows(before, op, i, ch, c);
      }
      assert Enters(Run(before), op, ch, c) ==> JoinedAt(ops, n, ch, c);
    }
  }

  /** The operation stops monitoring the client; leaving any channel does. */
  predicate StopsMonitoring(op: Op, c: string) {
    (op.Leave? && op.client == c) || op == Disconnect(c)
  }

  ghost predicate MonitoredFrom(ops: seq<Op>, i: nat, c: string) {
    && i < |ops| && ops[i].Join? && ops[i].client == c && Created(ops, ops[i].channel, i)
    && forall j :: i < j < |ops| ==> !StopsMonitoring(ops[j], c)
  }

  lemma MonitoredFromGrows(before: seq<Op>, op: Op, i: nat, c: string)
    ensures MonitoredFrom(before + [op], i, c) <==>
              if i == |before| then op.Join? && op.client == c && Created(before, op.channel, i)
              else MonitoredFrom(before, i, c) && !StopsMonitoring(op, c)
  {
    var ops := before + [op];
    if i <= |before| {
      assert ops[..i] == before[..i];
    }
    assert ops[|before|] == op && forall j :: 0 <= j < |before| ==> ops[j] == before[j];
  }

  predicate Registers(s: State, op: Op, c: string) {
    op.Join? && op.client == c && op.channel in s.channels.subscribers
  }

  lemma MonitoredChanges(s: State, op: Op, c: string)
    ensures c in Apply(s, op).monitored <==> Registers(s, op, c) || (c in s.monitored && !StopsMonitoring(op, c))
  {
  }

  /** A client is monitored exactly if it joined a channel and has left none since. */
  lemma {:induction false} MonitoredIff(ops: seq<Op>, c: string)
    ensures c in Run(ops).monitored <==> exists i :: MonitoredFrom(ops, i, c)
  {
    if ops == [] {
    } else {
      var n := |ops| - 1;
      var before, op := ops[..n], ops[n];
      assert ops == before + [op];
      MonitoredIff(before, c);
      MonitoredChanges(Run(before), op, c);
      if op.Join? {
        ChannelsAreCreated(before, op.channel);
      }
      forall i: nat
        ensures MonitoredFrom(ops, i, c) <==>
                  if i == n then Registers(Run(before), op, c)
                  else MonitoredFrom(before, i, c) && !StopsMonitoring(op, c)
      {
        MonitoredFromGrows(before, op, i, c);
      }
      assert Registers(Run(before), op, c) ==> MonitoredFrom(ops, n, c);
    }
  }

  /** Leaving one of two channels stops the monitoring of a client that is still in the other. */
  lemma MemberNotMonitored(a: string, b: string, c: string)
    requires a != b
    ensures var ops := [Create(a), Create(b), Join(a, c, map[], 0.0), Join(b, c, map[], 0.0), Leave(a, c)];
            In(Run(ops), b, c) && c !in Run(ops).monitored
  {
    var ops := [Create(a), Create(b), Join(a, c, map[], 0.0), Join(b, c, map[], 0.0), Leave(a, c)];
    assert ops[..3][1] == Create(b);
    assert JoinedAt(ops, 3, b, c);
    MemberIff(ops, b, c);
    MonitoredIff(ops, c);
  }

  /** Disconnecting takes the client out of every table and nobody else out of any;
      the channels returned are those it was in. */
  lemma DisconnectRemoves(ops: seq<Op>, c: string)
    ensures var s := Run(ops);
            var after := Run(ops + [Disconnect(c)]);
            && c !in after.monitored
            && (forall ch :: !In(after, ch, c) && !C.InChannel(after.channels, ch, c) &&
                  !C.Subscribed(after.channels.patterns, ch, c))
            && (forall ch, d :: d != c ==> (In(after, ch, d) <==> In(s, ch, d)))
            && (forall ch :: ch in P.Listed(s.presence.clients, c) <==> In(s, ch, c))
  {
    assert (ops + [Disconnect(c)])[..|ops|] == ops;
    RunInv(ops);
    forall ch, d
      ensures In(Apply(Run(ops), Disconnect(c)), ch, d) <==> d != c && In(Run(ops), ch, d)
      ensures d == c ==> !C.InChannel(Apply(Run(ops), Disconnect(c)).channels, ch, d)
      ensures d == c ==> !C.Subscribed(Apply(Run(ops), Disconnect(c)).channels.patterns, ch, d)
    {
      ApplyChanges(Run(ops), Disconnect(c), ch, d);
    }
  }
}
