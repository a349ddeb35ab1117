/** `BlockingExecutor.map`: how a list is cut into chunks and how chunk results are merged. */
module Chunking {
  type Item(!new)
  type Value(!new)

  datatype Outcome<+A> = Ok(value: A) | Err(message: string)

  /** A pure callable: a value or an exception message for each item. */
  type Callable = Item -> Outcome<Value>

  /** `[fn(item) for item in items]`: the values in order, or the first exception. */
  function SequentialMap(fn: Callable, items: seq<Item>): Outcome<seq<Value>> {
    if items == [] then Ok([])
    else
      match fn(items[0])
      case Err(message) => Err(message)
      case Ok(v) => Prepend([v], SequentialMap(fn, items[1..]))
  }

  function Prepend(vs: seq<Value>, rest: Outcome<seq<Value>>): Outcome<seq<Value>> {
    match rest
    case Err(message) => Err(message)
    case Ok(more) => Ok(vs + more)
  }

  lemma PrependTwice(a: seq<Value>, b: seq<Value>, rest: Outcome<seq<Value>>)
    ensures Prepend(a, Prepend(b, rest)) == Prepend(a + b, rest)
    ensures Prepend([], rest) == rest
  {
    if rest.Ok? {
      assert a + (b + rest.value) == a + b + rest.value;
      assert [] + rest.value == rest.value;
    }
  }

  /** What the loop over the chunk results returns. */
  function Merge(results: seq<Outcome<seq<Value>>>): Outcome<seq<Value>> {
    if results == [] then Ok([])
    else
      match results[0]
      case Err(message) => Err(message)
      case Ok(vs) => Prepend(vs, Merge(results[1..]))
  }

  method MergeResults(results: seq<Outcome<seq<Value>>>) returns (r: Outcome<seq<Value>>)
    ensures r == Merge(results)
  {
    var list := [];
    assert results[0..] == results;
    PrependTwice([], [], Merge(results));
    for i := 0 to |results|
      invariant Merge(results) == Prepend(list, Merge(results[i..]))
    {
      assert results[i..][1..] == results[i + 1..];
      if results[i].Ok? {
        PrependTwice(list, results[i].value, Merge(results[i + 1..]));
      }
      match results[i] {
        case Ok(vs) => list := list + vs;
        case Err(message) => return Err(message);
      }
    }
    assert results[|results|..] == [];
    assert list + [] == list;
    return Ok(list);
  }

  function Chunks(items: seq<Item>, size: nat): (chunks: seq<seq<Item>>)
    requires size > 0
    ensures items != [] ==> chunks != []
    decreases |items|
  {
    if items == [] then []
    else if |items| <= size then [items]
    else [items[..size]] + Chunks(items[size..], size)
  }

  lemma ChunksStep(items: seq<Item>, size: nat, n: nat)
    requires size > 0 && items != [] && n == if size < |items| then size else |items|
    ensures Chunks(items, size) == [items[..n]] + Chunks(items[n..], size)
  {
    if |items| <= size {
      assert items[..n] == items && items[n..] == [];
    }
  }

  method BuildChunks(items: seq<Item>, size: nat) returns (chunks: seq<seq<Item>>)
    requires size > 0
    ensures chunks == Chunks(items, size)
  {
    chunks := [];
    var start, total := 0, |items|;
    while start < total
      invariant 0 <= start <= total
      invariant Chunks(items, size) == chunks + Chunks(items[start..], size)
    {
      var end := if start + size < total then start + size else total;
      ChunksStep(items[start..], size, end - start);
      assert items[start..][..end - start] == items[start..end];
      assert items[start..][end - start..] == items[end..];
      chunks := chunks + [items[start..end]];
      start := end;
    }
  }

  /** The chunk size: the caller's, or one that oversubscribes each thread four times. */
  function ChunkSize(total: nat, requested: nat, threads: nat): (size: nat)
    requires threads > 0
    ensures size >= 1
  {
    var size := if requested > 0 then requested else (total + threads * 4 - 1) / (threads * 4);
    if size < 1 then 1 else size
  }

  lemma {:induction false} ChunkCount(items: seq<Item>, size: nat)
    requires size > 0
    ensures items != [] ==> (|Chunks(items, size)| - 1) * size < |items|
    decreases |items|
  {
    if |items| > size {
      ChunkCount(items[size..], size);
      var n := |Chunks(items[size..], size)|;
      assert n * size == (n - 1) * size + size;
    }
  }

  /** Without a requested size there are at most four chunks per thread. */
  lemma AutoChunkingIsBounded(items: seq<Item>, threads: nat)
    requires threads > 0
    ensures |Chunks(items, ChunkSize(|items|, 0, threads))| <= 4 * threads
  {
    var target := threads * 4;
    var size := ChunkSize(|items|, 0, threads);
    ChunkCount(items, size);
    if items != [] {
      CeilingCovers(|items|, target);
      FewerChunks(|Chunks(items, size)|, size, target, |items|);
    }
  }

  lemma CeilingCovers(total: nat, target: nat)
    requires target > 0
    ensures (total + target - 1) / target * target >= total
  {
    var q, r := (total + target - 1) / target, (total + target - 1) % target;
    assert total + target - 1 == q * target + r;
  }

  lemma FewerChunks(n: nat, size: nat, target: nat, total: nat)
    requires size > 0 && (n - 1) * size < total <= size * target
    ensures n <= target
  {
    assert n - 1 >= target ==> (n - 1) * size >= target * size;
  }

  function RunAll(fn: Callable, chunks: seq<seq<Item>>): (results: seq<Outcome<seq<Value>>>)
    ensures |results| == |chunks|
    ensures forall i :: 0 <= i < |chunks| ==> results[i] == SequentialMap(fn, chunks[i])
  {
    seq(|chunks|, i requires 0 <= i < |chunks| => SequentialMap(fn, chunks[i]))
  }

  lemma {:induction false} SequentialMapAppend(fn: Callable, a: seq<Item>, b: seq<Item>)
    ensures SequentialMap(fn, a + b)
         == match SequentialMap(fn, a)
            case Err(message) => Err(message)
            case Ok(vs) => Prepend(vs, SequentialMap(fn, b))
    decreases |a|
  {
    if a == [] {
      assert a + b == b;
      PrependTwice([], [], SequentialMap(fn, b));
    } else {
      assert (a + b)[1..] == a[1..] + b;
      SequentialMapAppend(fn, a[1..], b);
      if fn(a[0]).Ok? && SequentialMap(fn, a[1..]).Ok? {
        PrependTwice([fn(a[0]).value], SequentialMap(fn, a[1..]).value, SequentialMap(fn, b));
      }
    }
  }

  /** Mapping chunk by chunk and merging in chunk order is the sequential map,
      including which exception comes out. */
  lemma {:induction false} MergeOfChunks(fn: Callable, items: seq<Item>, size: nat)
    requires size > 0
    ensures Merge(RunAll(fn, Chunks(items, size))) == SequentialMap(fn, items)
    decreases |items|
  {
    var results := RunAll(fn, Chunks(items, size));
    if items == [] {
    } else if |items| <= size {
      assert results == [SequentialMap(fn, items)] && results[1..] == [];
      assert Merge(results[1..]) == Ok([]);
      if results[0].Ok? {
        assert results[0].value + [] == results[0].value;
      }
    } else {
      assert items == items[..size] + items[size..];
      SequentialMapAppend(fn, items[..size], items[size..]);
      MergeOfChunks(fn, items[size..], size);
      assert results[1..] == RunAll(fn, Chunks(items[size..], size));
    }
  }

  // ----- What the map is, item by item -----

  /** Item `k` is the first to raise, and raises `message`. */
  ghost predicate FirstError(fn: Callable, items: seq<Item>, k: nat, message: string) {
    k < |items| && fn(items[k]) == Err(message) && forall j :: 0 <= j < k ==> fn(items[j]).Ok?
  }

  /** The value of every item in its place, or the exception of the first item that raises. */
  ghost predicate IsMapOf(fn: Callable, items: seq<Item>, r: Outcome<seq<Value>>) {
    match r
    case Ok(vs) => |vs| == |items| && forall i :: 0 <= i < |items| ==> fn(items[i]) == Ok(vs[i])
    case Err(message) => exists k :: FirstError(fn, items, k, message)
  }

  lemma {:induction false} SequentialMapIs(fn: Callable, items: seq<Item>)
    ensures IsMapOf(fn, items, SequentialMap(fn, items))
  {
    if items == [] {
    } else if fn(items[0]).Err? {
      assert FirstError(fn, items, 0, fn(items[0]).message);
    } else {
      SequentialMapIs(fn, items[1..]);
      var rest := SequentialMap(fn, items[1..]);
      if rest.Err? {
        var k: nat :| FirstError(fn, items[1..], k, rest.message);
        assert FirstError(fn, items, k + 1, rest.message);
      }
    }
  }

  /** There is only one such outcome. */
  lemma MapIsUnique(fn: Callable, items: seq<Item>, q: Outcome<seq<Value>>, r: Outcome<seq<Value>>)
    requires IsMapOf(fn, items, q) && IsMapOf(fn, items, r)
    ensures q == r
  {
    if q.Ok? && r.Ok? {
      forall i | 0 <= i < |items|
        ensures q.value[i] == r.value[i]
      {
        assert fn(items[i]) == Ok(q.value[i]) == Ok(r.value[i]);
      }
      assert q.value == r.value;
    } else if q.Err? && r.Err? {
      var j: nat :| FirstError(fn, items, j, q.message);
      var k: nat :| FirstError(fn, items, k, r.message);
      assert j == k;
    }
  }

  lemma SequentialMapIff(fn: Callable, items: seq<Item>, r: Outcome<seq<Value>>)
    ensures r == SequentialMap(fn, items) <==> IsMapOf(fn, items, r)
  {
    SequentialMapIs(fn, items);
    if IsMapOf(fn, items, r) {
      MapIsUnique(fn, items, r, SequentialMap(fn, items));
    }
  }

  /** If every chunk's reply is the map of that chunk, the merged replies are the map of the whole list. */
  lemma MergeIsMap(fn: Callable, items: seq<Item>, size: nat, replies: seq<Outcome<seq<Value>>>)
    requires size > 0 && |replies| == |Chunks(items, size)|
    requires forall i :: 0 <= i < |replies| ==> IsMapOf(fn, Chunks(items, size)[i], replies[i])
    ensures IsMapOf(fn, items, Merge(replies))
  {
    forall i | 0 <= i < |replies|
      ensures replies[i] == RunAll(fn, Chunks(items, size))[i]
    {
      SequentialMapIff(fn, Chunks(items, size)[i], replies[i]);
    }
    assert replies == RunAll(fn, Chunks(items, size));
    MergeOfChunks(fn, items, size);
    SequentialMapIs(fn, items);
  }

  // ----- Which items a chunk holds -----

  function Least(a: nat, b: nat): nat { if a < b then a else b }

  /** Chunk `i` starts where `i` full chunks end and has the next `size` items, or what is left. */
  lemma {:induction false} ChunkIs(items: seq<Item>, size: nat, i: nat)
    requires size > 0 && i < |Chunks(items, size)|
    ensures i * size < |items|
    ensures Chunks(items, size)[i] == items[i * size..Least(i * size + size, |items|)]
    decreases i
  {
    if i == 0 {
      assert |items| <= size ==> items[0..|items|] == items;
    } else {
      var rest := items[size..];
      ChunkIs(rest, size, i - 1);
      OneTimesMore(i, size);
      assert Chunks(items, size)[i] == Chunks(rest, size)[i - 1];
      SliceShifted(items, size, (i - 1) * size);
    }
  }

  lemma OneTimesMore(i: int, size: nat)
    ensures i * size == (i - 1) * size + size
  {
  }

  lemma SliceShifted(items: seq<Item>, size: nat, from: nat)
    requires size + from <= |items|
    ensures items[size..][from..Least(from + size, |items| - size)]
         == items[from + size..Least(from + size + size, |items|)]
  {
  }

  /** And together they hold every item. */
  lemma {:induction false} ChunksCover(items: seq<Item>, size: nat)
    requires size > 0
    ensures |items| <= |Chunks(items, size)| * size
    decreases |items|
  {
    if |items| > size {
      ChunksCover(items[size..], size);
      var n := |Chunks(items[size..], size)|;
      assert (n + 1) * size == n * size + size;
    }
  }

  /** The requested size if there is one, and otherwise the smallest that makes at most four chunks per thread. */
  lemma ChunkSizeIs(total: nat, requested: nat, threads: nat)
    requires threads > 0
    ensures var size := ChunkSize(total, requested, threads);
            if requested > 0 then size == requested
            else total <= size * (threads * 4) && (size == 1 || (size - 1) * (threads * 4) < total)
  {
    var target := threads * 4;
    var size := ChunkSize(total, requested, threads);
    if requested == 0 {
      CeilingCovers(total, target);
      var q := (total + target - 1) / target;
      assert q * target <= total + target - 1;
      assert (q - 1) * target == q * target - target;
    }
  }
}
