/** Topic patterns and channel subscriptions. */
module Channels {
  import opened Text

  // ----- Matching a pattern -----

  /** `*` stands for one segment, `#` for one or more remaining ones. */
  predicate Matches(p: seq<string>, t: seq<string>) {
    if p == [] || t == [] then p == t
    else p[0] == "#" || ((p[0] == "*" || p[0] == t[0]) && Matches(p[1..], t[1..]))
  }

  predicate SegmentMatches(p: string, s: string) { p == "*" || p == s }

  /** The first `n` segments agree, and none of the pattern's is `#`. */
  ghost predicate PlainPrefix(p: seq<string>, t: seq<string>, n: nat) {
    n <= |p| && n <= |t| && forall i :: 0 <= i < n ==> p[i] != "#" && SegmentMatches(p[i], t[i])
  }

  /** The index-free meaning: either the segments agree one by one,
      or they do up to a `#` that has at least one segment left to stand for. */
  ghost predicate Meaning(p: seq<string>, t: seq<string>) {
    || (|p| == |t| && PlainPrefix(p, t, |p|))
    || exists h :: HashAt(p, t, h)
  }

  ghost predicate HashAt(p: seq<string>, t: seq<string>, h: nat) {
    h < |p| && h < |t| && p[h] == "#" && PlainPrefix(p, t, h)
  }

  lemma {:induction false} MatchesIsMeaning(p: seq<string>, t: seq<string>)
    ensures Matches(p, t) <==> Meaning(p, t)
  {
    if p != [] && t != [] {
      var p', t' := p[1..], t[1..];
      MatchesIsMeaning(p', t');
      if p[0] == "#" {
        assert HashAt(p, t, 0);
      } else {
        if Meaning(p', t') && SegmentMatches(p[0], t[0]) {
          PrefixGrows(p, t);
        }
        if Meaning(p, t) {
          PrefixShrinks(p, t);
        }
      }
    } else {
      assert PlainPrefix([], [], 0);
    }
  }

  lemma PrefixGrows(p: seq<string>, t: seq<string>)
    requires p != [] && t != [] && p[0] != "#" && SegmentMatches(p[0], t[0]) && Meaning(p[1..], t[1..])
    ensures Meaning(p, t)
  {
    var p', t' := p[1..], t[1..];
    if |p'| == |t'| && PlainPrefix(p', t', |p'|) {
      assert forall i :: 1 <= i < |p| ==> p[i] == p'[i - 1] && t[i] == t'[i - 1];
    } else {
      var h: nat :| HashAt(p', t', h);
      assert forall i :: 1 <= i <= h ==> p[i] == p'[i - 1] && t[i] == t'[i - 1];
      assert HashAt(p, t, h + 1);
    }
  }

  lemma PrefixShrinks(p: seq<string>, t: seq<string>)
    requires p != [] && t != [] && p[0] != "#" && Meaning(p, t)
    ensures SegmentMatches(p[0], t[0]) && Meaning(p[1..], t[1..])
  {
    if !(|p| == |t| && PlainPrefix(p, t, |p|)) {
      var h: nat :| HashAt(p, t, h);
      assert HashAt(p[1..], t[1..], h - 1);
    }
  }

  /** The equality shortcut changes nothing: everything matches itself. */
  lemma {:induction false} MatchesItself(p: seq<string>)
    ensures Matches(p, p)
  {
    if p == [] {
    } else {
      MatchesItself(p[1..]);
    }
  }

  /** Whatever stands after a `#` is never looked at. */
  lemma {:induction false} AfterHashIgnored(p: seq<string>, rest: seq<string>, t: seq<string>)
    ensures Matches(p + ["#"] + rest, t) == Matches(p + ["#"], t)
    decreases |p|
  {
    if p != [] && t != [] {
      assert (p + ["#"] + rest)[1..] == p[1..] + ["#"] + rest;
      assert (p + ["#"])[1..] == p[1..] + ["#"];
      AfterHashIgnored(p[1..], rest, t[1..]);
    }
  }

  method PatternMatches(pattern: string, topic: string) returns (b: bool)
    ensures b == Matches(SplitOn(pattern, ":"), SplitOn(topic, ":"))
  {
    if pattern == topic {
      MatchesItself(SplitOn(pattern, ":"));
      return true;
    }
    var patternParts := SplitOn(pattern, ":");
    var topicParts := SplitOn(topic, ":");
    var pi, ti := 0, 0;
    while pi < |patternParts| && ti < |topicParts|
      invariant 0 <= pi <= |patternParts| && 0 <= ti <= |topicParts|
      invariant Matches(patternParts, topicParts) == Matches(patternParts[pi..], topicParts[ti..])
    {
      assert patternParts[pi..][1..] == patternParts[pi + 1..];
      assert topicParts[ti..][1..] == topicParts[ti + 1..];
      if patternParts[pi] == "#" {
        return true;
      } else if patternParts[pi] == "*" {
        pi, ti := pi + 1, ti + 1;
      } else {
        if patternParts[pi] != topicParts[ti] {
          return false;
        }
        pi, ti := pi + 1, ti + 1;
      }
    }
    return pi == |patternParts| && ti == |topicParts|;
  }

  // ----- Subscriptions -----

  type Patterns = map<string, set<string>>

  predicate Subscribed(m: Patterns, pattern: string, client: string) {
    pattern in m && client in m[pattern]
  }

  /** A pattern is only kept while someone subscribes to it. */
  ghost predicate NoEmptyPattern(m: Patterns) {
    forall p :: p in m ==> m[p] != {}
  }

  function Added(m: Patterns, pattern: string, client: string): Patterns {
    m[pattern := (if pattern in m then m[pattern] else {}) + {client}]
  }

  function Removed(m: Patterns, pattern: string, client: string): Patterns {
    if pattern !in m then m
    else if m[pattern] - {client} == {} then m - {pattern}
    else m[pattern := m[pattern] - {client}]
  }

  function RemovedAll(m: Patterns, client: string): Patterns {
    map p | p in m && m[p] - {client} != {} :: m[p] - {client}
  }

  /** The client taken out of the sets in `done`. */
  ghost function Stripped(m: Patterns, done: set<string>, client: string): Patterns {
    map p | p in m :: if p in done then m[p] - {client} else m[p]
  }

  ghost function PatternsOf(m: Patterns, among: set<string>, client: string): set<string> {
    set p | p in among && Subscribed(m, p, client)
  }

  lemma StripOne(m: Patterns, done: set<string>, p: string, client: string)
    requires p in m && p !in done
    ensures Stripped(m, done, client)[p] == m[p]
    ensures Stripped(m, done, client)[p := m[p] - {client}] == Stripped(m, done + {p}, client)
    ensures |PatternsOf(m, done + {p}, client)| == |PatternsOf(m, done, client)| + if client in m[p] then 1 else 0
  {
    assert PatternsOf(m, done + {p}, client)
        == if client in m[p] then PatternsOf(m, done, client) + {p} else PatternsOf(m, done, client);
  }

  /** Everyone with a matching pattern. */
  ghost predicate Reached(m: Patterns, topic: string, client: string) {
    exists p :: Subscribed(m, p, client) && Matches(SplitOn(p, ":"), SplitOn(topic, ":"))
  }

  class TopicMatcher {
    var patterns: Patterns

    constructor ()
      ensures patterns == map[]
    {
      patterns := map[];
    }

    method Subscribe(pattern: string, client: string)
      modifies this
      ensures patterns == Added(old(patterns), pattern, client)
    {
      if pattern !in patterns {
        patterns := patterns[pattern := {}];
      }
      patterns := patterns[pattern := patterns[pattern] + {client}];
    }

    method Unsubscribe(pattern: string, client: string) returns (removed: bool)
      modifies this
      ensures removed == Subscribed(old(patterns), pattern, client)
      ensures patterns == Removed(old(patterns), pattern, client)
    {
      if pattern in patterns {
        removed := client in patterns[pattern];
        patterns := patterns[pattern := patterns[pattern] - {client}];
        if patterns[pattern] == {} {
          patterns := patterns - {pattern};
        }
      } else {
        removed := false;
      }
    }

    /** Takes the client out of every set, and reports the sets this leaves empty. */
    method StripClient(client: string) returns (count: nat, emptyPatterns: seq<string>)
      modifies this
      ensures patterns == Stripped(old(patterns), old(patterns).Keys, client)
      ensures forall p :: p in emptyPatterns <==> p in patterns && patterns[p] == {}
      ensures count == |PatternsOf(old(patterns), old(patterns).Keys, client)|
    {
      ghost var before := patterns;
      var todo := patterns.Keys;
      ghost var done: set<string> := {};
      count, emptyPatterns := 0, [];
      while todo != {}
        invariant todo <= before.Keys && done == before.Keys - todo
        invariant patterns == Stripped(before, done, client)
        invariant forall p :: p in emptyPatterns <==> p in done && before[p] - {client} == {}
        invariant count == |PatternsOf(before, done, client)|
        decreases todo
      {
        var p :| p in todo;
        StripOne(before, done, p, client);
        if client in patterns[p] {
          count := count + 1;
        }
        patterns := patterns[p := patterns[p] - {client}];
        if patterns[p] == {} {
          emptyPatterns := emptyPatterns + [p];
        }
        todo := todo - {p};
        done := done + {p};
      }
      assert done == before.Keys;
    }

    method DropPatterns(dropped: seq<string>)
      modifies this
      ensures patterns == map p | p in old(patterns) && p !in dropped :: old(patterns)[p]
    {
      for i := 0 to |dropped|
        invariant patterns == map p | p in old(patterns) && p !in dropped[..i] :: old(patterns)[p]
      {
        patterns := patterns - {dropped[i]};
      }
    }

    /** Returns how many patterns the client was subscribed to. */
    method UnsubscribeAll(client: string) returns (count: nat)
      modifies this
      ensures patterns == RemovedAll(old(patterns), client)
      ensures count == |PatternsOf(old(patterns), old(patterns).Keys, client)|
    {
      var emptyPatterns;
      count, emptyPatterns := StripClient(client);
      DropPatterns(emptyPatterns);
    }

    /** The clients reached, each once. */
    method MatchTopic(topic: string) returns (matched: set<string>)
      ensures forall c :: c in matched <==> Reached(patterns, topic, c)
    {
      matched := {};
      var todo := patterns.Keys;
      while todo != {}
        invariant todo <= patterns.Keys
        invariant forall c :: c in matched <==>
                    exists p :: p !in todo && Subscribed(patterns, p, c) &&
                        Matches(SplitOn(p, ":"), SplitOn(topic, ":"))
        decreases todo
      {
        var p :| p in todo;
        var hit := PatternMatches(p, topic);
        if hit {
          matched := matched + patterns[p];
        }
        todo := todo - {p};
      }
    }
  }

  // ----- Whole runs -----

  datatype Op = Sub(pattern: string, client: string) | Unsub(pattern: string, client: string) | UnsubAll(client: string)

  function Apply(m: Patterns, op: Op): Patterns {
    match op
    case Sub(p, c) => Added(m, p, c)
    case Unsub(p, c) => Removed(m, p, c)
    case UnsubAll(c) => RemovedAll(m, c)
  }

  function Run(ops: seq<Op>): Patterns {
    if ops == [] then map[] else Apply(Run(ops[..|ops| - 1]), ops[|ops| - 1])
  }

  predicate Ends(op: Op, pattern: string, client: string) {
    op == Unsub(pattern, client) || op == UnsubAll(client)
  }

  /** The `i`th operation subscribed the client, and none since has undone it. */
  ghost predicate SubscribedAt(ops: seq<Op>, i: nat, pattern: string, client: string) {
    i < |ops| && ops[i] == Sub(pattern, client) && forall j :: i < j < |ops| ==> !Ends(ops[j], pattern, client)
  }

  lemma ApplyChanges(m: Patterns, op: Op, pattern: string, client: string)
    ensures Subscribed(Apply(m, op), pattern, client)
       <==> op == Sub(pattern, client) || (Subscribed(m, pattern, client) && !Ends(op, pattern, client))
    ensures NoEmptyPattern(m) ==> NoEmptyPattern(Apply(m, op))
  {
    match op {
      case Sub(p, c) =>
      case Unsub(p, c) =>
        assert Subscribed(m, pattern, client) && client != c ==> client in m[pattern] - {c};
      case UnsubAll(c) =>
        assert Subscribed(m, pattern, client) && client != c ==> client in m[pattern] - {c};
    }
  }

  /** The table agrees with the history of calls. */
  lemma {:induction false} RunIsHistory(ops: seq<Op>, pattern: string, client: string)
    ensures Subscribed(Run(ops), pattern, client) <==> exists i :: SubscribedAt(ops, i, pattern, client)
    ensures NoEmptyPattern(Run(ops))
  {
    if ops == [] {
    } else {
      var before, op := ops[..|ops| - 1], ops[|ops| - 1];
      RunIsHistory(before, pattern, client);
      ApplyChanges(Run(before), op, pattern, client);
      if op == Sub(pattern, client) {
        assert SubscribedAt(ops, |ops| - 1, pattern, client);
      } else {
        forall i: nat
          ensures SubscribedAt(ops, i, pattern, client) <==>
              SubscribedAt(before, i, pattern, client) && !Ends(op, pattern, client)
        {
          assert forall j :: 0 <= j < |before| ==> ops[j] == before[j];
        }
      }
    }
  }

  /** Once unsubscribed from everything, a client is not returned for any topic
      until it subscribes again. */
  lemma {:induction false} GoneUntilItSubscribes(before: seq<Op>, after: seq<Op>, client: string, topic: string)
    requires forall i :: 0 <= i < |after| ==> !(after[i].Sub? && after[i].client == client)
    ensures !Reached(Run(before + [UnsubAll(client)] + after), topic, client)
  {
    var ops := before + [UnsubAll(client)] + after;
    forall p
      ensures !Subscribed(Run(ops), p, client)
    {
      RunIsHistory(ops, p, client);
      forall i: nat
        ensures !SubscribedAt(ops, i, p, client)
      {
        assert Ends(ops[|before|], p, client);
        assert i > |before| && i < |ops| ==> ops[i] == after[i - |before| - 1];
      }
    }
  }

  // ----- Channels and their subscribers -----

  datatype Status = Done | KeyError

  type Subscribers = map<string, set<string>>

  datatype Manager = Manager(subscribers: Subscribers, patterns: Patterns)

  predicate InChannel(m: Manager, ch: string, client: string) {
    ch in m.subscribers && client in m.subscribers[ch]
  }

  function Opened(m: Manager, ch: string): Manager {
    if ch in m.subscribers then m else m.(subscribers := m.subscribers[ch := {}])
  }

  function Entered(m: Manager, ch: string, client: string): Manager
    requires ch in m.subscribers
  {
    Manager(m.subscribers[ch := m.subscribers[ch] + {client}], Added(m.patterns, ch, client))
  }

  function Exited(m: Manager, ch: string, client: string): Manager {
    Manager(if ch in m.subscribers then m.subscribers[ch := m.subscribers[ch] - {client}] else m.subscribers,
            Removed(m.patterns, ch, client))
  }

  class ChannelManager {
    var subscribers: Subscribers
    const topicMatcher: TopicMatcher

    function Value(): Manager
      reads this, topicMatcher
    {
      Manager(subscribers, topicMatcher.patterns)
    }

    constructor ()
      ensures Value() == Manager(map[], map[]) && fresh(topicMatcher)
    {
      subscribers := map[];
      topicMatcher := new TopicMatcher();
    }

    method CreateChannel(name: string) returns (created: bool)
      modifies this
      ensures created == (name !in old(subscribers)) && Value() == Opened(old(Value()), name)
    {
      if name in subscribers {
        return false;
      }
      subscribers := subscribers[name := {}];
      return true;
    }

    /** A missing channel raises before anything has changed. */
    method Subscribe(name: string, client: string) returns (status: Status)
      modifies this, topicMatcher
      ensures status == if name in old(subscribers) then Done else KeyError
      ensures Value() == if status == Done then Entered(old(Value()), name, client) else old(Value())
    {
      if name !in subscribers {
        return KeyError;
      }
      subscribers := subscribers[name := subscribers[name] + {client}];
      topicMatcher.Subscribe(name, client);
      return Done;
    }

    method Unsubscribe(name: string, client: string) returns (removed: bool)
      modifies this, topicMatcher
      ensures removed == InChannel(old(Value()), name, client)
      ensures Value() == Exited(old(Value()), name, client)
    {
      var _ := topicMatcher.Unsubscribe(name, client);
      if name in subscribers {
        removed := client in subscribers[name];
        subscribers := subscribers[name := subscribers[name] - {client}];
      } else {
        removed := false;
      }
    }
  }
}
