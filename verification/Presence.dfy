/** `PresenceTracker`: who is in which channel, the reverse index from clients to channels,
    and the joins and leaves not yet reported. */
module Presence {
  import opened Counting
  import opened Lists

  datatype Info = Info(client: string, channel: string, metadata: map<string, string>, joinedAt: real, lastSeen: real)

  datatype Diff = Diff(joins: seq<Info>, leaves: seq<string>)

  const NO_CHANGES := Diff([], [])

  datatype ChannelPresence = ChannelPresence(members: map<string, Info>, pending: Diff)

  const NOBODY := ChannelPresence(map[], NO_CHANGES)

  type Channels = map<string, ChannelPresence>
  type Clients = map<string, seq<string>>

  datatype Tracker = Tracker(channels: Channels, clients: Clients)

  const EMPTY := Tracker(map[], map[])

  // ----- The tracker as a value -----

  predicate Member(channels: Channels, ch: string, c: string) {
    ch in channels && c in channels[ch].members
  }

  predicate Present(t: Tracker, ch: string, c: string) { Member(t.channels, ch, c) }

  function Pending(t: Tracker, ch: string): Diff {
    if ch in t.channels then t.channels[ch].pending else NO_CHANGES
  }

  /** The channels listed for a client, with repetitions. */
  function Listed(clients: Clients, c: string): seq<string> {
    if c in clients then clients[c] else []
  }

  function Joined(channels: Channels, info: Info): Channels {
    var p := if info.channel in channels then channels[info.channel] else NOBODY;
    channels[info.channel := ChannelPresence(p.members[info.client := info],
        p.pending.(joins := p.pending.joins + [info]))]
  }

  function Left(channels: Channels, ch: string, c: string): Channels {
    if !Member(channels, ch, c) then channels
    else
      var p := channels[ch];
      channels[ch := ChannelPresence(p.members - {c}, p.pending.(leaves := p.pending.leaves + [c]))]
  }

  function Forgotten(clients: Clients, ch: string, c: string): Clients {
    if c !in clients then clients
    else
      var rest := Without(clients[c], ch);
      if rest == [] then clients - {c} else clients[c := rest]
  }

  function CleanedUp(channels: Channels, ch: string): Channels {
    if ch in channels && channels[ch].members == map[] && channels[ch].pending == NO_CHANGES then channels - {ch}
    else channels
  }

  function Flushed(channels: Channels, ch: string): Channels {
    if ch in channels then channels[ch := channels[ch].(pending := NO_CHANGES)] else channels
  }

  function Refreshed(channels: Channels, ch: string, c: string, metadata: map<string, string>, now: real): Channels {
    if !Member(channels, ch, c) then channels
    else
      var p := channels[ch];
      channels[ch := p.(members := p.members[c := p.members[c].(metadata := metadata, lastSeen := now)])]
  }

  /** What the tracker does, in elementary steps. */
  datatype Step =
    | Join(info: Info)
    | Depart(channel: string, client: string)
    | Clean(channel: string)
    | Flush(channel: string)
    | Refresh(channel: string, client: string, metadata: map<string, string>, now: real)

  function Apply(t: Tracker, s: Step): Tracker {
    match s
    case Join(info) =>
      Tracker(Joined(t.channels, info), t.clients[info.client := Listed(t.clients, info.client) + [info.channel]])
    case Depart(ch, c) => Tracker(Left(t.channels, ch, c), Forgotten(t.clients, ch, c))
    case Clean(ch) => t.(channels := CleanedUp(t.channels, ch))
    case Flush(ch) => t.(channels := Flushed(t.channels, ch))
    case Refresh(ch, c, metadata, now) => t.(channels := Refreshed(t.channels, ch, c, metadata, now))
  }

  function Run(t: Tracker, steps: seq<Step>): Tracker {
    if steps == [] then t else Apply(Run(t, steps[..|steps| - 1]), steps[|steps| - 1])
  }

  // ----- Several departures -----

  type Place = (string, string)

  function Departures(places: seq<Place>): (r: seq<Step>)
    ensures |r| == |places| && forall i :: 0 <= i < |r| ==> r[i] == Depart(places[i].0, places[i].1)
  {
    seq(|places|, i requires 0 <= i < |places| => Depart(places[i].0, places[i].1))
  }

  ghost function LeftAll(channels: Channels, places: seq<Place>): Channels {
    if places == [] then channels
    else var last := places[|places| - 1]; Left(LeftAll(channels, places[..|places| - 1]), last.0, last.1)
  }

  ghost function ForgottenAll(clients: Clients, places: seq<Place>): Clients {
    if places == [] then clients
    else var last := places[|places| - 1]; Forgotten(ForgottenAll(clients, places[..|places| - 1]), last.0, last.1)
  }

  lemma {:induction false} DeparturesByTable(t: Tracker, places: seq<Place>)
    ensures Run(t, Departures(places)) == Tracker(LeftAll(t.channels, places), ForgottenAll(t.clients, places))
  {
    if places == [] {
    } else {
      var before := places[..|places| - 1];
      DeparturesByTable(t, before);
      assert Departures(places)[..|places| - 1] == Departures(before);
    }
  }

  lemma {:induction false} LeftAllAppend(channels: Channels, a: seq<Place>, b: seq<Place>)
    ensures LeftAll(channels, a + b) == LeftAll(LeftAll(channels, a), b)
    decreases |b|
  {
    if b == [] {
      assert a + b == a;
    } else {
      assert (a + b)[..|a + b| - 1] == a + b[..|b| - 1];
      LeftAllAppend(channels, a, b[..|b| - 1]);
    }
  }

  /** Exactly the named places are vacated. */
  lemma {:induction false} LeftAllMembers(channels: Channels, places: seq<Place>, ch: string, c: string)
    ensures Member(LeftAll(channels, places), ch, c) <==> Member(channels, ch, c) && (ch, c) !in places
  {
    if places == [] {
    } else {
      var before, last := places[..|places| - 1], places[|places| - 1];
      assert places == before + [last];
      LeftAllMembers(channels, before, ch, c);
    }
  }

  lemma {:induction false} WithoutIs(s: seq<string>, x: string, y: string)
    ensures Count(Without(s, x), y) == if y == x then 0 else Count(s, y)
  {
    if s == [] {
      assert Without(s, x) == [];
    } else {
      var u, z := s[..|s| - 1], s[|s| - 1];
      assert s == u + [z];
      WithoutIs(u, x, y);
      CountAppend(u, z, y);
      CountAppend(Without(u, x), z, y);
    }
  }

  ghost predicate NoEmptyList(clients: Clients) {
    forall c :: c in clients ==> clients[c] != []
  }

  /** Forgetting some of a client's channels, in any order and with repetitions. */
  lemma {:induction false} ForgottenPrefix(clients: Clients, list: seq<string>, c: string)
    requires NoEmptyList(clients)
    ensures var after := ForgottenAll(clients, Places(list, c));
            && NoEmptyList(after)
            && after - {c} == clients - {c}
            && forall ch :: ch in Listed(after, c) <==> ch in Listed(clients, c) && ch !in list
  {
    if list == [] {
    } else {
      var before, last := list[..|list| - 1], list[|list| - 1];
      assert list == before + [last];
      assert Places(list, c)[..|list| - 1] == Places(before, c);
      ForgottenPrefix(clients, before, c);
      var middle := ForgottenAll(clients, Places(before, c));
      WithoutMembers(Listed(middle, c), last);
      ForgetOne(middle, last, c);
    }
  }

  lemma ForgetOne(clients: Clients, ch: string, c: string)
    requires NoEmptyList(clients)
    ensures var after := Forgotten(clients, ch, c);
            NoEmptyList(after) && after - {c} == clients - {c} && Listed(after, c) == Without(Listed(clients, c), ch)
  {
  }

  lemma EmptyOrNot(s: seq<string>)
    ensures s == [] || exists x :: x in s
  {
    assert s != [] ==> s[0] in s;
  }

  /** Leaving every listed channel is the same as dropping the list. */
  lemma DisconnectIsDepartures(t: Tracker, c: string)
    requires NoEmptyList(t.clients)
    ensures var places := Places(Listed(t.clients, c), c);
            Run(t, Departures(places)) == Tracker(LeftAll(t.channels, places), t.clients - {c})
  {
    var list := Listed(t.clients, c);
    DeparturesByTable(t, Places(list, c));
    ForgottenPrefix(t.clients, list, c);
    var after := ForgottenAll(t.clients, Places(list, c));
    EmptyOrNot(Listed(after, c));
    assert after == after - {c};
  }

  // ----- The class -----

  class PresenceTracker {
    var channels: Channels
    var clients: Clients

    function Value(): Tracker
      reads this
    {
      Tracker(channels, clients)
    }

    constructor ()
      ensures Value() == EMPTY
    {
      channels, clients := map[], map[];
    }

    method Track(channel: string, client: string, metadata: map<string, string>, now: real) returns (info: Info)
      modifies this
      ensures info == Info(client, channel, metadata, now, now)
      ensures Value() == Apply(old(Value()), Join(info))
    {
      info := Info(client, channel, metadata, now, now);
      if channel !in channels {
        channels := channels[channel := NOBODY];
      }
      var p := channels[channel];
      channels := channels[channel := p.(members := p.members[client := info])];
      p := channels[channel];
      channels := channels[channel := p.(pending := p.pending.(joins := p.pending.joins + [info]))];
      Enlist(channel, client);
    }

    method Enlist(channel: string, client: string)
      modifies this`clients
      ensures clients == old(clients)[client := Listed(old(clients), client) + [channel]]
    {
      if client !in clients {
        clients := clients[client := []];
      }
      clients := clients[client := clients[client] + [channel]];
    }

    method Forget(channel: string, client: string)
      modifies this`clients
      ensures clients == Forgotten(old(clients), channel, client)
    {
      if client in clients {
        clients := clients[client := Without(clients[client], channel)];
        if clients[client] == [] {
          clients := clients - {client};
        }
      }
    }

    method Untrack(channel: string, client: string) returns (removed: bool)
      modifies this
      ensures removed == Present(old(Value()), channel, client)
      ensures Value() == Run(old(Value()), [Depart(channel, client), Clean(channel)])
    {
      ghost var before := Value();
      removed := false;
      if channel in channels {
        var p := channels[channel];
        removed := client in p.members;
        assert !removed ==> p.members - {client} == p.members && channels[channel := p] == channels;
        p := p.(members := p.members - {client});
        if removed {
          p := p.(pending := p.pending.(leaves := p.pending.leaves + [client]));
        }
        channels := channels[channel := p];
      }
      assert channels == Left(before.channels, channel, client);
      if channel in channels {
        var p := channels[channel];
        if p.members == map[] && p.pending.joins == [] && p.pending.leaves == [] {
          channels := channels - {channel};
        }
      }
      Forget(channel, client);
      RunTwo(before, Depart(channel, client), Clean(channel));
    }

    /** Returns the client's list, in which a channel joined twice appears twice. */
    method UntrackAll(client: string) returns (channelsLeft: seq<string>)
      modifies this
      ensures channelsLeft == Listed(old(clients), client)
      ensures channels == LeftAll(old(channels), Places(channelsLeft, client))
      ensures clients == old(clients) - {client}
      ensures NoEmptyList(old(clients)) ==> Value() == Run(old(Value()), Departures(Places(channelsLeft, client)))
    {
      if NoEmptyList(clients) {
        DisconnectIsDepartures(Value(), client);
      }
      if client !in clients {
        assert clients == clients - {client};
        channelsLeft := [];
        return;
      }
      channelsLeft := clients[client];
      clients := clients - {client};
      ghost var places := Places(channelsLeft, client);
      for i := 0 to |channelsLeft|
        invariant channels == LeftAll(old(channels), places[..i])
        invariant clients == old(clients) - {client}
      {
        assert places[..i + 1][..i] == places[..i];
        var channel := channelsLeft[i];
        if channel in channels && client in channels[channel].members {
          var p := channels[channel];
          channels := channels[channel := ChannelPresence(p.members - {client},
              p.pending.(leaves := p.pending.leaves + [client]))];
        }
      }
      assert places[..|places|] == places;
    }

    method Update(channel: string, client: string, metadata: map<string, string>, now: real) returns (found: bool)
      modifies this
      ensures found == Present(old(Value()), channel, client)
      ensures Value() == Apply(old(Value()), Refresh(channel, client, metadata, now))
    {
      if channel in channels {
        var p := channels[channel];
        if client in p.members {
          var info := p.members[client].(metadata := metadata, lastSeen := now);
          channels := channels[channel := p.(members := p.members[client := info])];
          return true;
        }
      }
      return false;
    }

    method FlushDiff(channel: string) returns (diff: Diff)
      modifies this
      ensures diff == Pending(old(Value()), channel)
      ensures Value() == Apply(old(Value()), Flush(channel))
    {
      if channel in channels {
        diff := channels[channel].pending;
        channels := channels[channel := channels[channel].(pending := NO_CHANGES)];
      } else {
        diff := NO_CHANGES;
      }
    }

    /** The stale members of one channel, in any order. */
    method EvictChannel(channel: string, cutoff: real) returns (stale: seq<string>)
      requires channel in channels
      modifies this`channels
      ensures channels == LeftAll(old(channels), At(channel, stale)) && channels.Keys == old(channels).Keys
      ensures forall c :: c in stale <==> Stale(old(channels), channel, c, cutoff)
      ensures Distinct(stale)
      ensures forall ch :: ch in channels && ch != channel ==> channels[ch] == old(channels)[ch]
    {
      ghost var before := channels;
      var todo := set c | c in channels[channel].members && channels[channel].members[c].lastSeen < cutoff;
      stale := [];
      while todo != {}
        invariant channels == LeftAll(before, At(channel, stale)) && channels.Keys == before.Keys
        invariant forall c :: c in todo <==> Stale(before, channel, c, cutoff) && c !in stale
        invariant forall c :: c in stale ==> Stale(before, channel, c, cutoff)
        invariant forall c :: c in todo ==> c in channels[channel].members
        invariant Distinct(stale)
        invariant forall ch :: ch in channels && ch != channel ==> channels[ch] == before[ch]
        decreases todo
      {
        var c :| c in todo;
        assert At(channel, stale + [c])[..|stale|] == At(channel, stale);
        var p := channels[channel];
        channels := channels[channel := ChannelPresence(p.members - {c}, p.pending.(leaves := p.pending.leaves + [c]))];
        stale := stale + [c];
        todo := todo - {c};
      }
    }

    /** Evicts everyone last seen before `cutoff`, each once. */
    method EvictStale(cutoff: real) returns (evicted: seq<Place>)
      modifies this
      ensures forall ch, c :: (ch, c) in evicted <==> Stale(old(channels), ch, c, cutoff)
      ensures Distinct(evicted)
      ensures Value() == Run(old(Value()), Departures(evicted))
    {
      evicted := EvictMembers(cutoff);
      for i := 0 to |evicted|
        invariant clients == ForgottenAll(old(clients), evicted[..i])
        invariant channels == LeftAll(old(channels), evicted)
      {
        assert evicted[..i + 1][..i] == evicted[..i];
        Forget(evicted[i].0, evicted[i].1);
      }
      assert evicted[..|evicted|] == evicted;
      DeparturesByTable(old(Value()), evicted);
    }

    method EvictMembers(cutoff: real) returns (evicted: seq<Place>)
      modifies this`channels
      ensures channels == LeftAll(old(channels), evicted)
      ensures forall ch, c :: (ch, c) in evicted <==> Stale(old(channels), ch, c, cutoff)
      ensures Distinct(evicted)
    {
      ghost var before := channels;
      var todo := channels.Keys;
      evicted := [];
      while todo != {}
        invariant todo <= before.Keys == channels.Keys
        invariant channels == LeftAll(before, evicted)
        invariant forall ch :: ch in todo ==> channels[ch] == before[ch]
        invariant forall ch, c :: (ch, c) in evicted <==> ch !in todo && Stale(before, ch, c, cutoff)
        invariant Distinct(evicted)
        decreases todo
      {
        var channel :| channel in todo;
        var stale := EvictChannel(channel, cutoff);
        LeftAllAppend(before, evicted, At(channel, stale));
        DistinctAppend(evicted, channel, stale);
        InAppend(evicted, channel, stale);
        evicted := evicted + At(channel, stale);
        todo := todo - {channel};
      }
    }

    method Clear()
      modifies this
      ensures Value() == EMPTY
    {
      channels, clients := map[], map[];
    }
  }

  lemma RunTwo(t: Tracker, a: Step, b: Step)
    ensures Run(t, [a, b]) == Apply(Apply(t, a), b)
  {
    assert [a, b][..1] == [a];
    assert [a][..0] == [];
    assert Run(t, [a]) == Apply(Run(t, []), a);
  }

  ghost predicate Stale(channels: Channels, ch: string, c: string, cutoff: real) {
    Member(channels, ch, c) && channels[ch].members[c].lastSeen < cutoff
  }

  /** One channel and several clients, or one client and several channels. */
  function At(ch: string, clients: seq<string>): (r: seq<Place>)
    ensures |r| == |clients| && forall i :: 0 <= i < |r| ==> r[i] == (ch, clients[i])
  {
    seq(|clients|, i requires 0 <= i < |clients| => (ch, clients[i]))
  }

  function Places(channels: seq<string>, c: string): (r: seq<Place>)
    ensures |r| == |channels| && forall i :: 0 <= i < |r| ==> r[i] == (channels[i], c)
  {
    seq(|channels|, i requires 0 <= i < |channels| => (channels[i], c))
  }

  lemma InAppend(places: seq<Place>, ch: string, clients: seq<string>)
    ensures forall d, c :: (d, c) in places + At(ch, clients) <==> (d, c) in places || (d == ch && c in clients)
  {
    forall d, c
      ensures (d, c) in At(ch, clients) <==> d == ch && c in clients
    {
      if d == ch && c in clients {
        var i :| 0 <= i < |clients| && clients[i] == c;
        assert At(ch, clients)[i] == (d, c);
      }
    }
  }

  lemma DistinctAppend(places: seq<Place>, ch: string, clients: seq<string>)
    requires Distinct(places) && Distinct(clients) && forall c :: (ch, c) !in places
    ensures Distinct(places + At(ch, clients))
  {
    forall i, j | 0 <= i < j < |places + At(ch, clients)|
      ensures (places + At(ch, clients))[i] != (places + At(ch, clients))[j]
    {
      assert i < |places| ==> (places[i].0, places[i].1) in places;
    }
  }

  // ----- Index agreement -----

  /** How often the client joined the channel again while in it, since it last came in. */
  function RejoinsSince(steps: seq<Step>, ch: string, c: string): nat {
    if steps == [] then 0
    else
      var before, s := steps[..|steps| - 1], steps[|steps| - 1];
      if s == Depart(ch, c) then 0
      else RejoinsSince(before, ch, c) + if Rejoins(Run(EMPTY, before), s, ch, c) then 1 else 0
  }

  predicate Rejoins(t: Tracker, s: Step, ch: string, c: string) {
    s.Join? && s.info.channel == ch && s.info.client == c && Present(t, ch, c)
  }

  lemma StepPresence(t: Tracker, s: Step, ch: string, c: string)
    ensures Present(Apply(t, s), ch, c) <==>
              (s.Join? && s.info.channel == ch && s.info.client == c) || (Present(t, ch, c) && s != Depart(ch, c))
  {
  }

  lemma StepList(t: Tracker, s: Step, ch: string, c: string)
    ensures Count(Listed(Apply(t, s).clients, c), ch)
         == if s == Depart(ch, c) then 0
            else Count(Listed(t.clients, c), ch)
                 + if s.Join? && s.info.channel == ch && s.info.client == c then 1 else 0
  {
    match s {
      case Join(info) => CountAppend(Listed(t.clients, info.client), info.channel, ch);
      case Depart(d, e) =>
        if e == c {
          WithoutIs(Listed(t.clients, c), d, ch);
        }
      case _ =>
    }
  }

  lemma NoEmptyListStep(t: Tracker, s: Step)
    requires NoEmptyList(t.clients)
    ensures NoEmptyList(Apply(t, s).clients)
  {
  }

  /** In every reachable state a channel is in a client's list exactly if the client is in the channel:
      once, plus once for each time it joined again while in it. No list is empty. */
  lemma {:induction false} IndexAgrees(steps: seq<Step>, ch: string, c: string)
    ensures var t := Run(EMPTY, steps);
            && NoEmptyList(t.clients)
            && (ch in Listed(t.clients, c) <==> Present(t, ch, c))
            && Count(Listed(t.clients, c), ch) == (if Present(t, ch, c) then 1 + RejoinsSince(steps, ch, c) else 0)
            && (!Present(t, ch, c) ==> RejoinsSince(steps, ch, c) == 0)
  {
    if steps == [] {
    } else {
      var before, s := steps[..|steps| - 1], steps[|steps| - 1];
      var t := Run(EMPTY, before);
      IndexAgrees(before, ch, c);
      NoEmptyListStep(t, s);
      StepPresence(t, s, ch, c);
      StepList(t, s, ch, c);
    }
    CountPositive(Listed(Run(EMPTY, steps).clients, c), ch);
  }

  ghost predicate IndexInv(t: Tracker) {
    && NoEmptyList(t.clients)
    && forall ch, c :: ch in Listed(t.clients, c) <==> Present(t, ch, c)
  }

  lemma {:induction false} IndexRun(t: Tracker, steps: seq<Step>)
    requires IndexInv(t)
    ensures IndexInv(Run(t, steps))
  {
    if steps == [] {
    } else {
      var before, s := Run(t, steps[..|steps| - 1]), steps[|steps| - 1];
      IndexRun(t, steps[..|steps| - 1]);
      NoEmptyListStep(before, s);
      forall ch, c
        ensures ch in Listed(Apply(before, s).clients, c) <==> Present(Apply(before, s), ch, c)
      {
        StepPresence(before, s, ch, c);
        StepList(before, s, ch, c);
        CountPositive(Listed(before.clients, c), ch);
        CountPositive(Listed(Apply(before, s).clients, c), ch);
      }
    }
  }

  // ----- Diffs -----

  function Then(a: Diff, b: Diff): Diff { Diff(a.joins + b.joins, a.leaves + b.leaves) }

  /** What the flushes of a channel have reported so far. */
  function Delivered(steps: seq<Step>, ch: string): Diff {
    if steps == [] then NO_CHANGES
    else
      var before, s := steps[..|steps| - 1], steps[|steps| - 1];
      if s == Flush(ch) then Then(Delivered(before, ch), Pending(Run(EMPTY, before), ch)) else Delivered(before, ch)
  }

  /** What one step changes in a channel. */
  function Change(t: Tracker, s: Step, ch: string): Diff {
    if s.Join? && s.info.channel == ch then Diff([s.info], [])
    else if s.Depart? && s.channel == ch && Present(t, ch, s.client) then Diff([], [s.client])
    else NO_CHANGES
  }

  /** All joins and leaves of a channel, each in the order it happened. */
  function History(steps: seq<Step>, ch: string): Diff {
    if steps == [] then NO_CHANGES
    else
      var before, s := steps[..|steps| - 1], steps[|steps| - 1];
      Then(History(before, ch), Change(Run(EMPTY, before), s, ch))
  }

  lemma StepPending(t: Tracker, s: Step, ch: string)
    ensures Pending(Apply(t, s), ch) == if s == Flush(ch) then NO_CHANGES else Then(Pending(t, ch), Change(t, s, ch))
  {
    assert forall d: Diff :: Then(d, NO_CHANGES) == d;
  }

  lemma ThenAssociates(a: Diff, b: Diff, c: Diff)
    ensures Then(Then(a, b), c) == Then(a, Then(b, c))
    ensures Then(a, NO_CHANGES) == a
  {
  }

  /** Nothing is lost or repeated: the reported diffs and the pending one make up the history,
      whatever channels were cleaned up in between. */
  lemma {:induction false} DiffsAreHistory(steps: seq<Step>, ch: string)
    ensures Then(Delivered(steps, ch), Pending(Run(EMPTY, steps), ch)) == History(steps, ch)
  {
    if steps == [] {
    } else {
      var before, s := steps[..|steps| - 1], steps[|steps| - 1];
      var t := Run(EMPTY, before);
      DiffsAreHistory(before, ch);
      StepPending(t, s, ch);
      ThenAssociates(Delivered(before, ch), Pending(t, ch), Change(t, s, ch));
      ThenAssociates(Then(Delivered(before, ch), Pending(t, ch)), NO_CHANGES, NO_CHANGES);
    }
  }

  function JoinsOf(joins: seq<Info>, c: string): nat {
    if joins == [] then 0 else JoinsOf(joins[..|joins| - 1], c) + if joins[|joins| - 1].client == c then 1 else 0
  }

  /** How often the client joined the channel while already in it. */
  function AllRejoins(steps: seq<Step>, ch: string, c: string): nat {
    if steps == [] then 0
    else
      var before := steps[..|steps| - 1];
      AllRejoins(before, ch, c) + if Rejoins(Run(EMPTY, before), steps[|steps| - 1], ch, c) then 1 else 0
  }

  lemma {:induction false} HistoryBalances(steps: seq<Step>, ch: string, c: string)
    ensures JoinsOf(History(steps, ch).joins, c)
         == Count(History(steps, ch).leaves, c) + (if Present(Run(EMPTY, steps), ch, c) then 1 else 0) +
             AllRejoins(steps, ch, c)
  {
    if steps == [] {
    } else {
      var before, s := steps[..|steps| - 1], steps[|steps| - 1];
      var t := Run(EMPTY, before);
      HistoryBalances(before, ch, c);
      StepPresence(t, s, ch, c);
      var past := History(before, ch);
      var change := Change(t, s, ch);
      if change.joins != [] {
        assert (past.joins + change.joins)[..|past.joins|] == past.joins;
      } else {
        assert past.joins + change.joins == past.joins;
      }
      if change.leaves != [] {
        CountAppend(past.leaves, change.leaves[0], c);
      } else {
        assert past.leaves + change.leaves == past.leaves;
      }
    }
  }

  /** Reported and pending together, a client's joins exceed its leaves by one while it is present and by
      none otherwise, plus the times it was tracked again while present. */
  lemma DiffsBalance(steps: seq<Step>, ch: string, c: string)
    ensures var d := Then(Delivered(steps, ch), Pending(Run(EMPTY, steps), ch));
            JoinsOf(d.joins, c) - Count(d.leaves, c) ==
              (if Present(Run(EMPTY, steps), ch, c) then 1 else 0) + AllRejoins(steps, ch, c)
  {
    DiffsAreHistory(steps, ch);
    HistoryBalances(steps, ch, c);
  }

  // ----- What is known of a member -----

  /** The client's latest entry into the channel, with what was updated since. */
  function LatestInfo(steps: seq<Step>, ch: string, c: string): Info {
    if steps == [] then Info(c, ch, map[], 0.0, 0.0)
    else
      var before := LatestInfo(steps[..|steps| - 1], ch, c);
      match steps[|steps| - 1]
      case Join(info) => if info.channel == ch && info.client == c then info else before
      case Refresh(d, e, metadata, now) =>
        if d == ch && e == c then before.(metadata := metadata, lastSeen := now) else before
      case _ => before
  }

  /** A member's record is that of its latest entry and updates, which is what staleness is measured by. */
  lemma {:induction false} MemberInfoIs(steps: seq<Step>, ch: string, c: string)
    requires Present(Run(EMPTY, steps), ch, c)
    ensures Run(EMPTY, steps).channels[ch].members[c] == LatestInfo(steps, ch, c)
  {
    if steps == [] {
    } else {
      var before, s := steps[..|steps| - 1], steps[|steps| - 1];
      var t := Run(EMPTY, before);
      StepPresence(t, s, ch, c);
      if Present(t, ch, c) {
        MemberInfoIs(before, ch, c);
      }
    }
  }
}
