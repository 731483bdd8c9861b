/**
 * Sequence helpers shared by the task models: an optional value, order-preserving
 * filtering, the fixed-size chunking the tasks use to split their work into
 * batches (`temba.utils.chunk_list`), and a stable sort by an integer key (the
 * `order_by` of a query).
 */
module Collections {

  datatype Option<T> = None | Some(value: T)

  /** The elements of `s` that satisfy `p`, in their original order. */
  function Filter<T>(s: seq<T>, p: T -> bool): (r: seq<T>)
    ensures |r| <= |s|
    ensures forall i :: 0 <= i < |r| ==> r[i] in s && p(r[i])
    ensures forall i :: 0 <= i < |s| && p(s[i]) ==> s[i] in r
    decreases |s|
  {
    if s == [] then [] else (if p(s[0]) then [s[0]] else []) + Filter(s[1..], p)
  }

  /** The ids of a list, as a set: the `id__in=ids` of a query. */
  function IdSet(ids: seq<int>): set<int>
  {
    set x | x in ids
  }

  /** Every element is distinct from every other one. */
  predicate Distinct<T(==)>(s: seq<T>)
  {
    forall i, j :: 0 <= i < j < |s| ==> s[i] != s[j]
  }

  lemma {:induction false} FilterDistinct<T>(s: seq<T>, p: T -> bool)
    requires Distinct(s)
    ensures Distinct(Filter(s, p))
    decreases |s|
  {
    if s != [] {
      var tail := s[1..];
      assert Distinct(tail) by {
        forall i, j | 0 <= i < j < |tail| ensures tail[i] != tail[j] {
          assert tail[i] == s[i + 1] && tail[j] == s[j + 1];
        }
      }
      FilterDistinct(tail, p);
      var rest := Filter(tail, p);
      forall k | 0 <= k < |rest| ensures rest[k] != s[0] {
        var i :| 0 <= i < |tail| && tail[i] == rest[k];
        assert tail[i] == s[i + 1];
      }
    }
  }

  /** A sequence without repetitions has as many elements as its set. */
  lemma {:induction false} DistinctCard<T>(s: seq<T>)
    requires Distinct(s)
    ensures |set x | x in s| == |s|
    decreases |s|
  {
    if s != [] {
      var rest := s[1..];
      assert Distinct(rest) by {
        forall i, j | 0 <= i < j < |rest| ensures rest[i] != rest[j] {
          assert rest[i] == s[i + 1] && rest[j] == s[j + 1];
        }
      }
      DistinctCard(rest);
      assert s[0] !in rest by {
        forall k | 0 <= k < |rest| ensures rest[k] != s[0] {
          assert rest[k] == s[k + 1];
        }
      }
      assert (set x | x in s) == (set x | x in rest) + {s[0]} by {
        assert s == [s[0]] + rest;
      }
    }
  }

  /** The concatenation of a sequence of chunks. */
  function Flatten<T>(chunks: seq<seq<T>>): seq<T>
    decreases |chunks|
  {
    if chunks == [] then [] else chunks[0] + Flatten(chunks[1..])
  }

  lemma {:induction false} FlattenAppend<T>(a: seq<seq<T>>, b: seq<seq<T>>)
    ensures Flatten(a + b) == Flatten(a) + Flatten(b)
    decreases |a|
  {
    if a == [] {
      assert a + b == b;
    } else {
      assert (a + b)[0] == a[0] && (a + b)[1..] == a[1..] + b;
      FlattenAppend(a[1..], b);
    }
  }

  /** Every element of a chunk occurs in the concatenation of the chunks. */
  lemma {:induction false} InFlatten<T>(chunks: seq<seq<T>>, i: nat, x: T)
    requires i < |chunks| && x in chunks[i]
    ensures x in Flatten(chunks)
    decreases i
  {
    if i > 0 {
      InFlatten(chunks[1..], i - 1, x);
    }
  }

  /** Every element of the concatenation occurs in some chunk. */
  lemma {:induction false} FromFlatten<T>(chunks: seq<seq<T>>, x: T) returns (i: nat)
    requires x in Flatten(chunks)
    ensures i < |chunks| && x in chunks[i]
    decreases |chunks|
  {
    if x in chunks[0] {
      i := 0;
    } else {
      var j := FromFlatten(chunks[1..], x);
      i := j + 1;
    }
  }

  /**
   * `chunk_list(s, n)`: consecutive slices of `s` of length `n`, the last one
   * possibly shorter; no chunk is empty and together they give back `s`.
   */
  function Chunks<T>(s: seq<T>, n: nat): (r: seq<seq<T>>)
    requires n > 0
    ensures Flatten(r) == s
    ensures forall i :: 0 <= i < |r| ==> 0 < |r[i]| <= n
    decreases |s|
  {
    if s == [] then []
    else if |s| <= n then [s]
    else
      var rest := Chunks(s[n..], n);
      assert ([s[..n]] + rest)[1..] == rest;
      assert s[..n] + s[n..] == s;
      [s[..n]] + rest
  }

  lemma ChunksUnfold<T>(s: seq<T>, n: nat)
    requires 0 < n < |s|
    ensures Chunks(s, n) == [s[..n]] + Chunks(s[n..], n)
  {
  }

  /** Every element of every chunk comes from the chunked sequence. */
  lemma ChunkWithin<T>(s: seq<T>, n: nat, i: nat, x: T)
    requires n > 0 && i < |Chunks(s, n)| && x in Chunks(s, n)[i]
    ensures x in s
  {
    InFlatten(Chunks(s, n), i, x);
  }

  /** No element of `s` occurs in `t`. */
  predicate Disjoint<T(==)>(s: seq<T>, t: seq<T>)
  {
    forall i :: 0 <= i < |s| ==> s[i] !in t
  }

  /** The chunks of a sequence without repetitions share no element. */
  lemma DistinctSuffix<T>(s: seq<T>, n: nat)
    requires Distinct(s) && n <= |s|
    ensures Distinct(s[n..])
  {
    forall i, j | 0 <= i < j < |s| - n ensures s[n..][i] != s[n..][j] {
      assert s[n..][i] == s[n + i] && s[n..][j] == s[n + j];
    }
  }

  /** Without repetitions, the first `n` elements occur in no later chunk. */
  lemma HeadDisjointFromLaterChunk<T>(s: seq<T>, n: nat, b: nat)
    requires 0 < n < |s| && Distinct(s) && b < |Chunks(s[n..], n)|
    ensures Disjoint(s[..n], Chunks(s[n..], n)[b])
  {
    var head, tail := s[..n], s[n..];
    var other := Chunks(tail, n)[b];
    forall i | 0 <= i < |head| ensures head[i] !in other {
      forall k | 0 <= k < |other| ensures other[k] != head[i] {
        ChunkWithin(tail, n, b, other[k]);
        var j :| 0 <= j < |tail| && tail[j] == other[k];
        assert tail[j] == s[n + j] && head[i] == s[i];
      }
    }
  }

  /** Without repetitions, the first chunk shares no element with any later one. */
  lemma FirstChunkDisjoint<T>(s: seq<T>, n: nat, b: nat)
    requires n > 0 && Distinct(s) && 0 < b < |Chunks(s, n)|
    ensures Disjoint(Chunks(s, n)[0], Chunks(s, n)[b])
  {
    FirstChunk(s, n);
    LaterChunk(s, n, b);
    HeadDisjointFromLaterChunk(s, n, b - 1);
  }

  /** The chunks of a sequence without repetitions share no element. */
  lemma {:induction false} ChunksDisjoint<T>(s: seq<T>, n: nat, a: nat, b: nat)
    requires n > 0 && Distinct(s) && a < b < |Chunks(s, n)|
    ensures Disjoint(Chunks(s, n)[a], Chunks(s, n)[b])
    decreases |s|
  {
    if a == 0 {
      FirstChunkDisjoint(s, n, b);
    } else {
      LaterChunk(s, n, a);
      LaterChunk(s, n, b);
      DistinctSuffix(s, n);
      ChunksDisjoint(s[n..], n, a - 1, b - 1);
    }
  }

  /** The first chunk of `s` is its first `n` elements when more follow. */
  lemma FirstChunk<T>(s: seq<T>, n: nat)
    requires n > 0 && |Chunks(s, n)| > 1
    ensures |s| > n && Chunks(s, n)[0] == s[..n]
  {
    ChunksUnfold(s, n);
  }

  /** Past the first, the chunks of `s` are the chunks of what follows the first `n` elements. */
  lemma LaterChunk<T>(s: seq<T>, n: nat, i: nat)
    requires n > 0 && 0 < i < |Chunks(s, n)|
    ensures |s| > n && i - 1 < |Chunks(s[n..], n)| && Chunks(s, n)[i] == Chunks(s[n..], n)[i - 1]
  {
    ChunksUnfold(s, n);
  }

  predicate SortedBy<T>(s: seq<T>, key: T -> int)
  {
    forall i, j :: 0 <= i < j < |s| ==> key(s[i]) <= key(s[j])
  }

  /** Inserts `x` before the first element whose key is not smaller than its own. */
  function InsertBy<T>(x: T, s: seq<T>, key: T -> int): (r: seq<T>)
    ensures |r| == |s| + 1
    ensures multiset(r) == multiset(s) + multiset{x}
    decreases |s|
  {
    if s == [] || key(x) <= key(s[0]) then [x] + s
    else
      var rest := InsertBy(x, s[1..], key);
      assert s == [s[0]] + s[1..];
      [s[0]] + rest
  }

  /** Inserting keeps every key at or above a bound that `x` and all of `s` respect. */
  lemma {:induction false} InsertByAbove<T>(x: T, s: seq<T>, key: T -> int, lo: int)
    requires key(x) >= lo && forall i :: 0 <= i < |s| ==> key(s[i]) >= lo
    ensures forall j :: 0 <= j < |InsertBy(x, s, key)| ==> key(InsertBy(x, s, key)[j]) >= lo
    decreases |s|
  {
    if s != [] && key(x) > key(s[0]) {
      var tail := s[1..];
      assert forall i :: 0 <= i < |tail| ==> tail[i] == s[i + 1];
      InsertByAbove(x, tail, key, lo);
      var r := InsertBy(x, s, key);
      assert r == [s[0]] + InsertBy(x, tail, key);
      assert forall j :: 0 < j < |r| ==> r[j] == InsertBy(x, tail, key)[j - 1];
    }
  }

  lemma {:induction false} InsertBySorted<T>(x: T, s: seq<T>, key: T -> int)
    requires SortedBy(s, key)
    ensures SortedBy(InsertBy(x, s, key), key)
    decreases |s|
  {
    if s != [] && key(x) > key(s[0]) {
      var tail := s[1..];
      var rest := InsertBy(x, tail, key);
      assert SortedBy(tail, key) && forall i :: 0 <= i < |tail| ==> key(tail[i]) >= key(s[0]) by {
        assert forall i :: 0 <= i < |tail| ==> tail[i] == s[i + 1];
      }
      InsertBySorted(x, tail, key);
      InsertByAbove(x, tail, key, key(s[0]));
      var r := InsertBy(x, s, key);
      assert r == [s[0]] + rest;
      forall i, j | 0 <= i < j < |r| ensures key(r[i]) <= key(r[j]) {
        assert r[j] == rest[j - 1];
        if i > 0 {
          assert r[i] == rest[i - 1];
        }
      }
    }
  }

  /** Two sequences with the same multiset have the same elements. */
  lemma SameMembers<T>(a: seq<T>, b: seq<T>)
    requires multiset(a) == multiset(b)
    ensures forall x :: x in a <==> x in b
  {
    forall x ensures x in a <==> x in b {
      assert x in a <==> x in multiset(a);
      assert x in b <==> x in multiset(b);
    }
  }

  /**
   * An insertion sort by `key`: the `order_by` of a query. `InsertBy` puts an
   * element before the first one with an equal key, so ties keep their order.
   */
  function SortBy<T>(s: seq<T>, key: T -> int): (r: seq<T>)
    ensures |r| == |s| && multiset(r) == multiset(s)
    ensures SortedBy(r, key)
    decreases |s|
  {
    if s == [] then []
    else
      var rest := SortBy(s[1..], key);
      InsertBySorted(s[0], rest, key);
      assert s == [s[0]] + s[1..];
      InsertBy(s[0], rest, key)
  }
}
