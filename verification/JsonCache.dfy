/** `JsonResponseCache`: entries with a time to live, and eviction by hits when full.
    A call reads the clock once; keys stand for their hashes. */
module JsonCache {
  import opened Wrappers

  type Key = string
  type Bytes = string

  const U64_MAX: nat := 0xFFFF_FFFF_FFFF_FFFF

  datatype Entry = Entry(data: Bytes, createdAt: real, ttl: real, hits: nat)

  type Cache = map<Key, Entry>

  predicate Expired(e: Entry, now: real) { now - e.createdAt > e.ttl }

  function HitOnce(e: Entry): Entry { e.(hits := (e.hits + 1) % (U64_MAX + 1)) }

  // ----- What each operation may do to the table -----

  ghost function AfterGet(c: Cache, key: Key, now: real): Cache {
    if key !in c then c else if Expired(c[key], now) then c - {key} else c[key := HitOnce(c[key])]
  }

  function Answer(c: Cache, key: Key, now: real): Option<Bytes> {
    if key in c && !Expired(c[key], now) then Some(c[key].data) else None
  }

  ghost function Live(c: Cache, now: real): Cache { map k | k in c && !Expired(c[k], now) :: c[k] }

  /** The search starts at the largest count, so an entry that reached it is never found. */
  ghost predicate Victim(c: Cache, k: Key) {
    k in c && c[k].hits < U64_MAX && forall j :: j in c ==> c[k].hits <= c[j].hits
  }

  ghost predicate LeastHitEvicted(c: Cache, after: Cache) {
    if exists k :: k in c && c[k].hits < U64_MAX then exists k :: Victim(c, k) && after == c - {k}
    else after == c
  }

  /** Expired entries go first, and only a cache that is still full loses a live one. */
  ghost predicate MadeRoom(max: nat, c: Cache, now: real, after: Cache) {
    if |c| < max then after == c
    else if |Live(c, now)| < max then after == Live(c, now)
    else LeastHitEvicted(Live(c, now), after)
  }

  class JsonResponseCache {
    const maxSize: nat
    const defaultTtl: real
    var cache: Cache

    constructor (maxSize: nat, defaultTtl: real)
      ensures this.maxSize == maxSize && this.defaultTtl == defaultTtl && cache == map[]
    {
      this.maxSize, this.defaultTtl, cache := maxSize, defaultTtl, map[];
    }

    method Get(key: Key, now: real) returns (data: Option<Bytes>)
      modifies this
      ensures data == Answer(old(cache), key, now) && cache == AfterGet(old(cache), key, now)
    {
      if key in cache {
        if Expired(cache[key], now) {
          cache := cache - {key};
          return None;
        }
        cache := cache[key := HitOnce(cache[key])];
        return Some(cache[key].data);
      }
      return None;
    }

    method Insert(key: Key, data: Bytes, now: real)
      modifies this
      ensures exists room: Cache ::
                MadeRoom(maxSize, old(cache), now, room) && cache == room[key := Entry(data, now, defaultTtl, 0)]
    {
      InsertWithTtl(key, data, defaultTtl, now);
    }

    method InsertWithTtl(key: Key, data: Bytes, ttl: real, now: real)
      modifies this
      ensures exists room: Cache ::
                MadeRoom(maxSize, old(cache), now, room) && cache == room[key := Entry(data, now, ttl, 0)]
    {
      if |cache| >= maxSize {
        EvictExpired(now);
      }
      if |cache| >= maxSize {
        EvictLru();
      }
      assert MadeRoom(maxSize, old(cache), now, cache);
      cache := cache[key := Entry(data, now, ttl, 0)];
    }

    method EvictExpired(now: real)
      modifies this
      ensures cache == Live(old(cache), now)
    {
      cache := map k | k in cache && !Expired(cache[k], now) :: cache[k];
    }

    method EvictLru()
      modifies this
      ensures LeastHitEvicted(old(cache), cache)
    {
      var minHits := U64_MAX;
      var minKey: Option<Key> := None;
      var todo := cache.Keys;
      while todo != {}
        invariant todo <= cache.Keys
        invariant minKey.None? ==> minHits == U64_MAX
        invariant minKey.Some? ==> minKey.value in cache && cache[minKey.value].hits == minHits < U64_MAX
        invariant forall j :: j in cache && j !in todo ==> minHits <= cache[j].hits
        decreases todo
      {
        var k :| k in todo;
        if cache[k].hits < minHits {
          minHits := cache[k].hits;
          minKey := Some(k);
        }
        todo := todo - {k};
      }
      if minKey.Some? {
        assert Victim(cache, minKey.value);
        cache := cache - {minKey.value};
      }
    }

    method Invalidate(key: Key)
      modifies this
      ensures cache == old(cache) - {key}
    {
      cache := cache - {key};
    }

    method Clear()
      modifies this
      ensures cache == map[]
    {
      cache := map[];
    }
  }

  // ----- Whole runs -----

  datatype Op =
    | Get(key: Key, now: real)
    | Insert(key: Key, data: Bytes, ttl: real, now: real)
    | Invalidate(key: Key)
    | Clear

  ghost predicate Step(max: nat, c: Cache, op: Op, after: Cache) {
    match op
    case Get(key, now) => after == AfterGet(c, key, now)
    case Insert(key, data, ttl, now) =>
      exists room: Cache :: MadeRoom(max, c, now, room) && after == room[key := Entry(data, now, ttl, 0)]
    case Invalidate(key) => after == c - {key}
    case Clear => after == map[]
  }

  ghost predicate Path(max: nat, ops: seq<Op>, path: seq<Cache>) {
    && |path| == |ops| + 1 && path[0] == map[]
    && forall i :: 0 <= i < |ops| ==> Step(max, path[i], ops[i], path[i + 1])
  }

  // ----- Agreement with the history of inserts -----

  /** The plain history: the latest insert of a key with no invalidation or clearing since. */
  function Latest(ops: seq<Op>, key: Key): Option<Entry> {
    if ops == [] then None
    else
      var before := Latest(ops[..|ops| - 1], key);
      match ops[|ops| - 1]
      case Get(_, _) => before
      case Insert(k, data, ttl, now) => if k == key then Some(Entry(data, now, ttl, 0)) else before
      case Invalidate(k) => if k == key then None else before
      case Clear => None
  }

  /** Equal but for the hits. */
  predicate SameInsert(e: Entry, f: Entry) { e.data == f.data && e.createdAt == f.createdAt && e.ttl == f.ttl }

  lemma RoomIsSubset(max: nat, c: Cache, now: real, room: Cache, k: Key)
    requires MadeRoom(max, c, now, room) && k in room
    ensures k in c && room[k] == c[k]
  {
  }

  lemma StepFromBefore(max: nat, c: Cache, op: Op, after: Cache, k: Key)
    requires Step(max, c, op, after) && k in after
    ensures if op.Insert? && op.key == k then after[k] == Entry(op.data, op.now, op.ttl, 0)
            else k in c && SameInsert(after[k], c[k]) && op != Invalidate(k) && op != Clear
  {
    if op.Insert? {
      var room: Cache :| MadeRoom(max, c, op.now, room) && after == room[op.key := Entry(op.data, op.now, op.ttl, 0)];
      if op.key != k {
        RoomIsSubset(max, c, op.now, room, k);
      }
    }
  }

  lemma {:induction false} EntriesAreHistory(max: nat, ops: seq<Op>, path: seq<Cache>, n: nat, k: Key)
    requires Path(max, ops, path) && n <= |ops| && k in path[n]
    ensures Latest(ops[..n], k).Some? && SameInsert(path[n][k], Latest(ops[..n], k).value)
  {
    if n == 0 {
    } else {
      assert Step(max, path[n - 1], ops[n - 1], path[n - 1 + 1]);
      StepFromBefore(max, path[n - 1], ops[n - 1], path[n], k);
      assert ops[..n][..n - 1] == ops[..n - 1];
      if !(ops[n - 1].Insert? && ops[n - 1].key == k) {
        EntriesAreHistory(max, ops, path, n - 1, k);
      }
    }
  }

  /** A hit returns the bytes of the key's latest insert, with no invalidation or clearing since, and no older
      than its time to live. */
  lemma HitIsLatest(max: nat, ops: seq<Op>, path: seq<Cache>, n: nat, key: Key, now: real)
    requires Path(max, ops, path) && n <= |ops| && Answer(path[n], key, now).Some?
    ensures var h := Latest(ops[..n], key);
            h.Some? && Answer(path[n], key, now) == Some(h.value.data) && !Expired(h.value, now)
  {
    EntriesAreHistory(max, ops, path, n, key);
  }

  // ----- A cache with room is its history -----

  function KeysOf(ops: seq<Op>): set<Key> {
    if ops == [] then {}
    else KeysOf(ops[..|ops| - 1]) + if ops[|ops| - 1].Insert? then {ops[|ops| - 1].key} else {}
  }

  predicate HasTime(op: Op) { op.Get? || op.Insert? }

  lemma {:induction false} KeysAreInserted(max: nat, ops: seq<Op>, path: seq<Cache>, n: nat)
    requires Path(max, ops, path) && n <= |ops|
    ensures path[n].Keys <= KeysOf(ops[..n]) <= KeysOf(ops)
    decreases |ops| - n, n
  {
    forall k | k in path[n]
      ensures k in KeysOf(ops[..n])
    {
      EntriesAreHistory(max, ops, path, n, k);
      LatestWasInserted(ops[..n], k);
    }
    KeysGrow(ops, n);
  }

  lemma {:induction false} LatestWasInserted(ops: seq<Op>, k: Key)
    requires Latest(ops, k).Some?
    ensures k in KeysOf(ops)
  {
    if !(ops[|ops| - 1].Insert? && ops[|ops| - 1].key == k) {
      LatestWasInserted(ops[..|ops| - 1], k);
    }
  }

  lemma {:induction false} KeysGrow(ops: seq<Op>, n: nat)
    requires n <= |ops|
    ensures KeysOf(ops[..n]) <= KeysOf(ops)
  {
    if n < |ops| {
      KeysGrow(ops[..|ops| - 1], n);
      assert ops[..|ops| - 1][..n] == ops[..n];
    } else {
      assert ops[..n] == ops;
    }
  }

  lemma SubsetSize<T>(a: set<T>, b: set<T>)
    requires a <= b
    ensures |a| <= |b|
  {
    assert b == a + (b - a);
  }

  /** With room to spare nothing live is ever lost. */
  lemma {:induction false} RoomyKeeps(max: nat, ops: seq<Op>, path: seq<Cache>, n: nat, key: Key, now: real)
    requires Path(max, ops, path) && n <= |ops| && |KeysOf(ops)| < max
    requires forall i :: 0 <= i < n && HasTime(ops[i]) ==> ops[i].now <= now
    requires Latest(ops[..n], key).Some? && !Expired(Latest(ops[..n], key).value, now)
    ensures key in path[n]
  {
    var op := ops[n - 1];
    assert Step(max, path[n - 1], op, path[n - 1 + 1]);
    assert ops[..n][..n - 1] == ops[..n - 1];
    KeysAreInserted(max, ops, path, n - 1);
    SubsetSize(path[n - 1].Keys, KeysOf(ops));
    assert |path[n - 1]| == |path[n - 1].Keys|;
    if !(op.Insert? && op.key == key) {
      RoomyKeeps(max, ops, path, n - 1, key, now);
      EntriesAreHistory(max, ops, path, n - 1, key);
    }
  }

  /** If fewer keys than the cache has room for are ever inserted, a get is exactly a look at the history. */
  lemma RoomyCacheIsHistory(max: nat, ops: seq<Op>, path: seq<Cache>, n: nat, key: Key, now: real)
    requires Path(max, ops, path) && n <= |ops| && |KeysOf(ops)| < max
    requires forall i :: 0 <= i < n && HasTime(ops[i]) ==> ops[i].now <= now
    ensures var h := Latest(ops[..n], key);
            Answer(path[n], key, now) == if h.Some? && !Expired(h.value, now) then Some(h.value.data) else None
  {
    var h := Latest(ops[..n], key);
    if h.Some? && !Expired(h.value, now) {
      RoomyKeeps(max, ops, path, n, key, now);
    }
    if key in path[n] {
      EntriesAreHistory(max, ops, path, n, key);
    }
  }

  // ----- Eviction -----

  /** An insert loses another live entry only if the live ones alone fill the cache. Then every expired entry
      goes too, and the lost one is the only one and has the fewest hits. */
  lemma LiveLostOnlyIf(max: nat, c: Cache, op: Op, after: Cache, k: Key)
    requires op.Insert? && Step(max, c, op, after)
    requires k in c && !Expired(c[k], op.now) && k !in after
    ensures |Live(c, op.now)| >= max
    ensures forall j :: j in after && j != op.key ==> j in c && !Expired(c[j], op.now)
    ensures forall j :: j in c && !Expired(c[j], op.now) ==> c[k].hits <= c[j].hits && (j == k || j in after)
  {
    var room: Cache :| MadeRoom(max, c, op.now, room) && after == room[op.key := Entry(op.data, op.now, op.ttl, 0)];
    assert k in Live(c, op.now);
    var live := Live(c, op.now);
    var v :| Victim(live, v) && room == live - {v};
    assert k == v;
    forall j | j in c && !Expired(c[j], op.now)
      ensures c[k].hits <= c[j].hits && (j == k || j in after)
    {
      assert j in live && live[j] == c[j];
    }
  }

  // ----- Size -----

  function Limit(max: nat): nat { if max == 0 then 1 else max }

  ghost predicate AllSaturated(c: Cache) { forall k :: k in c ==> c[k].hits == U64_MAX }

  ghost predicate Hits64(c: Cache) { forall k :: k in c ==> c[k].hits <= U64_MAX }

  lemma LiveIsSmaller(c: Cache, now: real)
    ensures |Live(c, now)| <= |c|
  {
    assert Live(c, now).Keys <= c.Keys;
    SubsetSize(Live(c, now).Keys, c.Keys);
    assert |Live(c, now)| == |Live(c, now).Keys| && |c| == |c.Keys|;
  }

  lemma InsertedSize(c: Cache, k: Key, e: Entry)
    ensures |c[k := e]| == |c| + if k in c then 0 else 1
  {
    assert c[k := e].Keys == c.Keys + {k};
    assert |c[k := e]| == |c[k := e].Keys| && |c| == |c.Keys|;
  }

  lemma RemovedSize(c: Cache, k: Key)
    requires k in c
    ensures |c - {k}| == |c| - 1
  {
    assert (c - {k}).Keys == c.Keys - {k};
    assert |c - {k}| == |(c - {k}).Keys| && |c| == |c.Keys|;
  }

  /** An insert breaks the size limit exactly if the key is new, the live entries fill the cache,
      and each of them has reached the largest count of hits. */
  lemma InsertOverflowsIff(max: nat, c: Cache, op: Op, after: Cache)
    requires op.Insert? && Step(max, c, op, after) && |c| <= Limit(max) && Hits64(c)
    ensures |after| > Limit(max) <==>
              (var live := Live(c, op.now); op.key !in live && |live| == Limit(max) && AllSaturated(live))
  {
    var e := Entry(op.data, op.now, op.ttl, 0);
    var room: Cache :| MadeRoom(max, c, op.now, room) && after == room[op.key := e];
    var live := Live(c, op.now);
    LiveIsSmaller(c, op.now);
    InsertedSize(room, op.key, e);
    if |live| >= max {
      if exists k :: k in live && live[k].hits < U64_MAX {
        var k :| Victim(live, k) && room == live - {k};
        RemovedSize(live, k);
      } else {
        assert room == live && AllSaturated(live);
      }
    }
  }

  function Gets(ops: seq<Op>): nat {
    if ops == [] then 0 else Gets(ops[..|ops| - 1]) + if ops[|ops| - 1].Get? then 1 else 0
  }

  lemma StepHits(max: nat, c: Cache, op: Op, after: Cache, k: Key)
    requires Step(max, c, op, after) && k in after
    ensures after[k].hits == 0 || (k in c && after[k].hits <= c[k].hits + if op.Get? then 1 else 0)
  {
    if op.Insert? {
      var room: Cache :| MadeRoom(max, c, op.now, room) && after == room[op.key := Entry(op.data, op.now, op.ttl, 0)];
      if op.key != k {
        RoomIsSubset(max, c, op.now, room, k);
      }
    }
  }

  lemma {:induction false} HitsAreGets(max: nat, ops: seq<Op>, path: seq<Cache>, n: nat, k: Key)
    requires Path(max, ops, path) && n <= |ops| && k in path[n]
    ensures path[n][k].hits <= Gets(ops[..n])
  {
    if n == 0 {
    } else {
      assert Step(max, path[n - 1], ops[n - 1], path[n - 1 + 1]);
      StepHits(max, path[n - 1], ops[n - 1], path[n], k);
      assert ops[..n][..n - 1] == ops[..n - 1];
      if path[n][k].hits != 0 {
        HitsAreGets(max, ops, path, n - 1, k);
      }
    }
  }

  /** Until there have been 2^64 - 1 gets, the cache never holds more than `max_size` entries, or one. */
  lemma {:induction false} SizeIsBounded(max: nat, ops: seq<Op>, path: seq<Cache>, n: nat)
    requires Path(max, ops, path) && n <= |ops| && Gets(ops[..n]) < U64_MAX
    ensures |path[n]| <= Limit(max)
  {
    if n == 0 {
    } else {
      var c, op := path[n - 1], ops[n - 1];
      assert Step(max, c, op, path[n - 1 + 1]);
      assert ops[..n][..n - 1] == ops[..n - 1];
      SizeIsBounded(max, ops, path, n - 1);
      forall k | k in c
        ensures c[k].hits < U64_MAX
      {
        HitsAreGets(max, ops, path, n - 1, k);
      }
      SizeStep(max, c, op, path[n]);
    }
  }

  lemma SizeStep(max: nat, c: Cache, op: Op, after: Cache)
    requires Step(max, c, op, after) && |c| <= Limit(max) && forall k :: k in c ==> c[k].hits < U64_MAX
    ensures |after| <= Limit(max)
  {
    match op {
      case Insert(key, data, ttl, now) =>
        InsertOverflowsIff(max, c, op, after);
        NotAllSaturated(Live(c, now));
      case Get(key, now) =>
        if key in c {
          RemovedSize(c, key);
          InsertedSize(c, key, HitOnce(c[key]));
        }
      case Invalidate(key) =>
        if key in c {
          RemovedSize(c, key);
        } else {
          assert c - {key} == c;
        }
      case Clear =>
    }
  }

  lemma NotAllSaturated(c: Cache)
    requires forall k :: k in c ==> c[k].hits < U64_MAX
    ensures |c| > 0 ==> !AllSaturated(c)
  {
    if |c| > 0 {
      var k :| k in c;
      assert c[k].hits < U64_MAX;
    }
  }

  // ----- The limit can be passed -----

  function HitTimes(hits: nat): Cache { map["a" := Entry("", 0.0, 1.0, hits)] }

  function OpAt(i: nat): Op {
    if i == 0 then Insert("a", "", 1.0, 0.0) else if i <= U64_MAX then Get("a", 0.0) else Insert("b", "", 1.0, 0.0)
  }

  function StateAt(i: nat): Cache {
    if i == 0 then map[]
    else if i <= U64_MAX + 1 then HitTimes(i - 1)
    else HitTimes(U64_MAX)["b" := Entry("", 0.0, 1.0, 0)]
  }

  lemma FirstInsert()
    ensures Step(1, map[], Insert("a", "", 1.0, 0.0), HitTimes(0))
  {
    assert MadeRoom(1, map[], 0.0, map[]);
  }

  lemma NextGet(hits: nat)
    requires hits < U64_MAX
    ensures Step(1, HitTimes(hits), Get("a", 0.0), HitTimes(hits + 1))
  {
  }

  lemma LastInsert()
    ensures Step(1, HitTimes(U64_MAX), Insert("b", "", 1.0, 0.0), HitTimes(U64_MAX)["b" := Entry("", 0.0, 1.0, 0)])
  {
    var c := HitTimes(U64_MAX);
    assert Live(c, 0.0) == c;
    assert LeastHitEvicted(c, c);
    assert MadeRoom(1, c, 0.0, c);
  }

  lemma StepAt(i: nat)
    requires i <= U64_MAX + 1
    ensures Step(1, StateAt(i), OpAt(i), StateAt(i + 1))
  {
    if i == 0 {
      FirstInsert();
    } else if i <= U64_MAX {
      NextGet(i - 1);
    } else {
      LastInsert();
    }
  }

  lemma SaturatingRun(ops: seq<Op>, path: seq<Cache>)
    requires |ops| == U64_MAX + 2 && |path| == |ops| + 1
    requires forall i :: 0 <= i < |ops| ==> ops[i] == OpAt(i)
    requires forall i :: 0 <= i < |path| ==> path[i] == StateAt(i)
    ensures Path(1, ops, path) && |path[|ops|]| == 2
  {
    forall i | 0 <= i < |ops|
      ensures Step(1, path[i], ops[i], path[i + 1])
    {
      StepAt(i);
    }
    InsertedSize(HitTimes(U64_MAX), "b", Entry("", 0.0, 1.0, 0));
  }

  /** After 2^64 - 1 gets of its only entry, a cache for one entry can hold two. */
  lemma LimitCanBePassed()
    ensures exists ops: seq<Op>, path: seq<Cache> :: Path(1, ops, path) && |path[|ops|]| == 2
  {
    var ops := seq(U64_MAX + 2, i requires 0 <= i => OpAt(i));
    var path := seq(U64_MAX + 3, i requires 0 <= i => StateAt(i));
    SaturatingRun(ops, path);
  }

  // ----- Hits, and what an insert loses -----

  /** How often the key was asked for since it was last inserted. */
  function GetsSince(ops: seq<Op>, k: Key): nat {
    if ops == [] then 0
    else
      var before, op := GetsSince(ops[..|ops| - 1], k), ops[|ops| - 1];
      if op.Insert? && op.key == k then 0 else if op.Get? && op.key == k then before + 1 else before
  }

  lemma HitsStep(max: nat, c: Cache, op: Op, after: Cache, k: Key)
    requires Step(max, c, op, after) && k in after
    ensures if op.Insert? && op.key == k then after[k].hits == 0
            else k in c && after[k].hits == if op.Get? &&
                op.key == k then (c[k].hits + 1) % (U64_MAX + 1) else c[k].hits
  {
    if op.Insert? {
      var room: Cache :| MadeRoom(max, c, op.now, room) && after == room[op.key := Entry(op.data, op.now, op.ttl, 0)];
      if op.key != k {
        RoomIsSubset(max, c, op.now, room, k);
      }
    }
  }

  lemma WrapStep(x: nat, m: nat)
    requires m > 1
    ensures (x % m + 1) % m == (x + 1) % m
  {
    var q := x / m;
    assert x + 1 == m * q + (x % m + 1);
    if x % m + 1 == m {
      assert x + 1 == m * (q + 1);
      WrapUnique(x + 1, m, q + 1, 0);
    } else {
      WrapUnique(x + 1, m, q, x % m + 1);
    }
  }

  lemma WrapUnique(x: nat, m: nat, q: nat, r: nat)
    requires m > 1 && r < m && x == m * q + r
    ensures x % m == r
  {
    var d := x / m;
    NoMultiple(m, q - d, x % m - r);
  }

  lemma NoMultiple(m: nat, k: int, rest: int)
    requires m * k == rest && 0 < rest + m && rest < m
    ensures k == 0
  {
  }

  /** An entry's hits are the gets of its key since it was inserted, on a 64-bit counter. */
  lemma {:induction false} HitsAreGetsSince(max: nat, ops: seq<Op>, path: seq<Cache>, n: nat, k: Key)
    requires Path(max, ops, path) && n <= |ops| && k in path[n]
    ensures path[n][k].hits == GetsSince(ops[..n], k) % (U64_MAX + 1)
  {
    if n == 0 {
    } else {
      assert Step(max, path[n - 1], ops[n - 1], path[n - 1 + 1]);
      HitsStep(max, path[n - 1], ops[n - 1], path[n], k);
      assert ops[..n][..n - 1] == ops[..n - 1];
      if !(ops[n - 1].Insert? && ops[n - 1].key == k) {
        HitsAreGetsSince(max, ops, path, n - 1, k);
        WrapStep(GetsSince(ops[..n - 1], k), U64_MAX + 1);
      }
    }
  }

  ghost predicate Loses(c: Cache, after: Cache, key: Key, k: Key) { k in c && k !in after && k != key }

  /** An insert drops expired entries exactly if the cache was full, and a live one in addition exactly if the live ones
      alone fill it and one of them can be found. */
  lemma InsertLosesIff(max: nat, c: Cache, op: Op, after: Cache)
    requires op.Insert? && Step(max, c, op, after)
    ensures forall k :: k in c && Expired(c[k], op.now) && k != op.key ==> (k in after <==> |c| < max)
    ensures (after - {op.key} == Live(c, op.now) - {op.key}) || |c| < max ||
            (|Live(c, op.now)| >= max && exists k :: k in Live(c, op.now) && c[k].hits < U64_MAX)
    ensures |Live(c, op.now)| < max ==> forall k :: k in Live(c, op.now) ==> k in after
    ensures |c| >= max && |Live(c, op.now)| >= max && (exists k :: k in Live(c, op.now) && c[k].hits < U64_MAX) ==>
              exists k :: Victim(Live(c, op.now), k) && (k == op.key || k !in after)
  {
    var room: Cache :| MadeRoom(max, c, op.now, room) && after == room[op.key := Entry(op.data, op.now, op.ttl, 0)];
    var live := Live(c, op.now);
    LiveIsSmaller(c, op.now);
    assert forall k :: k in live ==> live[k] == c[k];
  }
}
