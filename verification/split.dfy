/** Model of internal/util/slices/split.go: round-robin bucketing.  Element `i`
    goes to bucket `i % n`; Go collects the buckets in a map and returns them in
    map-iteration order, which the model fixes to key order. */
module Slices {
  import opened Wrappers

  /** Every `n`-th element of `v`, starting at index `j`: the bucket of key `j`. */
  function Stride<T>(v: seq<T>, j: nat, n: nat): (r: seq<T>)
    requires n > 0
    ensures j >= |v| <==> |r| == 0
    decreases |v| - j
  {
    if j >= |v| then [] else [v[j]] + Stride(v, j + n, n)
  }

  /** The buckets in key order: one per key `j < min(n, |v|)`. */
  function Buckets<T>(v: seq<T>, n: nat): (bs: seq<seq<T>>)
    requires n > 0
  {
    seq(Min(n, |v|), j requires 0 <= j < Min(n, |v|) => Stride(v, j, n))
  }

  function Min(a: int, b: int): int { if a <= b then a else b }

  /** All buckets concatenated. */
  function Flatten<T>(bs: seq<seq<T>>): seq<T>
    decreases |bs|
  {
    if |bs| == 0 then [] else Flatten(bs[..|bs| - 1]) + bs[|bs| - 1]
  }

  /** The element appended after `len` elements lands in the bucket of key `j`. */
  predicate TurnOf(len: nat, j: nat, n: nat)
    requires n > 0
  {
    j <= len && (len - j) % n == 0
  }

  lemma TurnShift(len: nat, j: nat, n: nat)
    requires n > 0 && j < len
    ensures TurnOf(len, j, n) == TurnOf(len, j + n, n)
  {
    if j + n <= len {
      ModShift(len - j - n, n);
    } else {
      DivModUnique(len - j, n, 0, len - j);
    }
  }

  /** Appending an element extends exactly the bucket whose turn it is. */
  lemma {:induction false} StrideSnoc<T>(v: seq<T>, x: T, j: nat, n: nat)
    requires n > 0
    ensures Stride(v + [x], j, n) == Stride(v, j, n) + (if TurnOf(|v|, j, n) then [x] else [])
    decreases |v| - j
  {
    var w := v + [x];
    if j > |v| {
      assert Stride(w, j, n) == [];
    } else if j == |v| {
      assert Stride(w, j + n, n) == [];
      assert Stride(w, j, n) == [x];
      assert TurnOf(|v|, j, n);
    } else {
      StrideSnoc(v, x, j + n, n);
      TurnShift(|v|, j, n);
      assert w[j] == v[j];
      assert Stride(w, j, n) == [v[j]] + Stride(w, j + n, n);
      assert Stride(v, j, n) == [v[j]] + Stride(v, j + n, n);
    }
  }

  lemma MulAtLeast(k: int, n: int)
    requires k >= 1 && n > 0
    ensures k * n >= n
    decreases k
  {
    if k > 1 { MulAtLeast(k - 1, n); }
  }

  /** Euclidean division is unique: `q * n + r` with `0 <= r < n` has quotient `q` and remainder `r`. */
  lemma DivModUnique(a: int, n: int, q: int, r: int)
    requires n > 0 && 0 <= r < n && a == q * n + r
    ensures a % n == r && a / n == q
  {
    var q0 := a / n;
    var r0 := a % n;
    assert a == q0 * n + r0;
    assert (q - q0) * n == r0 - r;
    if q - q0 >= 1 { MulAtLeast(q - q0, n); }
    if q0 - q >= 1 { MulAtLeast(q0 - q, n); }
  }

  lemma ModShift(a: int, n: int)
    requires n > 0
    ensures (a + n) % n == a % n
  {
    DivModUnique(a + n, n, a / n + 1, a % n);
  }

  /** Among the keys `0 <= j < n`, index `i` belongs to key `i % n` only. */
  lemma KeyOfIndex(i: nat, j: nat, n: nat)
    requires 0 < n && j < n
    ensures TurnOf(i, j, n) <==> j == i % n
  {
    if j <= i && (i - j) % n == 0 {
      var q := (i - j) / n;
      assert i == q * n + j;
      DivModUnique(i, n, q, j);
    }
    if j == i % n {
      assert i == (i / n) * n + j;
      assert i - j == (i / n) * n;
      MulMod(i / n, n);
    }
  }

  lemma MulMod(q: int, n: int)
    requires n > 0
    ensures (q * n) % n == 0
  {
    DivModUnique(q * n, n, q, 0);
  }

  /** Reading element `i` extends the bucket of key `i % n` and no other. */
  lemma ReadOneMore<T>(v: seq<T>, i: nat, n: nat)
    requires n > 0 && i < |v|
    ensures forall j: nat :: j < n ==>
              Stride(v[..i + 1], j, n) == Stride(v[..i], j, n) + (if j == i % n then [v[i]] else [])
    ensures i < n ==> i % n == i
    ensures i % n < n
  {
    forall j: nat | j < n
      ensures Stride(v[..i + 1], j, n) == Stride(v[..i], j, n) + (if j == i % n then [v[i]] else [])
    {
      assert v[..i + 1] == v[..i] + [v[i]];
      StrideSnoc(v[..i], v[i], j, n);
      KeyOfIndex(i, j, n);
    }
    if i < n {
      DivModUnique(i, n, 0, i);
    }
  }

  /** After reading `i` elements the map holds, for every key seen so far, its
      bucket of the prefix read so far. */
  ghost predicate Distributed<T>(v: seq<T>, i: nat, n: nat, div: map<nat, seq<T>>)
    requires n > 0 && i <= |v|
  {
    && (forall j: nat :: j in div <==> j < Min(n, i))
    && (forall j :: j in div ==> div[j] == Stride(v[..i], j, n))
  }

  /** One iteration: append `v[i]` to the bucket of key `i % n`. */
  lemma DistributeStep<T>(v: seq<T>, i: nat, n: nat, div: map<nat, seq<T>>)
    requires n > 0 && i < |v| && Distributed(v, i, n, div)
    ensures var idx := i % n;
            Distributed(v, i + 1, n, div[idx := (if idx in div then div[idx] else []) + [v[i]]])
  {
    ReadOneMore(v, i, n);
  }

  /** The round-robin loop of `Split` and `divideSlice`. */
  method Distribute<T>(n: nat, v: seq<T>) returns (div: map<nat, seq<T>>)
    requires n > 0
    ensures forall j: nat :: j in div <==> j < Min(n, |v|)
    ensures forall j :: j in div ==> div[j] == Stride(v, j, n)
  {
    div := map[];
    var i := 0;
    while i < |v|
      invariant 0 <= i <= |v|
      invariant Distributed(v, i, n, div)
    {
      var idx := i % n;
      var l := if idx in div then div[idx] else [];
      DistributeStep(v, i, n, div);
      div := div[idx := l + [v[i]]];
      i := i + 1;
    }
    assert v[..i] == v;
  }

  /** Collects the map's buckets in key order. */
  function InKeyOrder<T>(div: map<nat, seq<T>>, m: nat): (bs: seq<seq<T>>)
    requires forall j: nat :: j < m ==> j in div
    ensures |bs| == m && forall j :: 0 <= j < m ==> bs[j] == div[j]
  {
    seq(m, j requires 0 <= j < m => div[j])
  }

  /** `Split`: an empty input gives no buckets whatever `n` is; otherwise `n`
      must be positive. */
  method Split<T>(n: int, v: seq<T>) returns (r: Result<seq<seq<T>>>)
    ensures |v| == 0 ==> r == Ok([])
    ensures |v| > 0 && n <= 0 ==> r.Err?
    ensures |v| > 0 && n > 0 ==> r == Ok(Buckets(v, n))
  {
    if |v| == 0 {
      return Ok([]);
    }
    if n <= 0 {
      return Err("n must be greater than zero");
    }
    var div := Distribute(n, v);
    var bs := InKeyOrder(div, Min(n, |v|));
    assert bs == Buckets(v, n);
    return Ok(bs);
  }

  /** Element `i` sits in bucket `i % n` at position `i / n`, so order within a
      bucket follows the input. */
  lemma {:induction false} StrideAt<T>(v: seq<T>, j: nat, n: nat, k: nat)
    requires n > 0 && j + k * n < |v|
    ensures k < |Stride(v, j, n)| && Stride(v, j, n)[k] == v[j + k * n]
    decreases k
  {
    if k > 0 {
      var i := k - 1;
      var rest := Stride(v, j + n, n);
      StrideStepIndex(j, n, k, i);
      StrideAt(v, j + n, n, i);
      assert Stride(v, j, n) == [v[j]] + rest;
      assert ([v[j]] + rest)[k] == rest[i];
    }
  }

  lemma StrideStepIndex(j: nat, n: nat, k: nat, i: nat)
    requires k == i + 1
    ensures j + k * n == (j + n) + i * n && j <= j + k * n
  {
  }

  lemma PlacementInBuckets<T>(v: seq<T>, n: nat, i: nat)
    requires n > 0 && i < |v|
    ensures i % n < |Buckets(v, n)|
    ensures i / n < |Buckets(v, n)[i % n]| && Buckets(v, n)[i % n][i / n] == v[i]
  {
    assert i == i % n + (i / n) * n;
    StrideAt(v, i % n, n, i / n);
    assert i % n <= i;
  }

  /** Buckets that start closer to the front hold the same number of elements
      or one more. */
  lemma {:induction false} StrideSizes<T>(v: seq<T>, j1: nat, j2: nat, n: nat)
    requires n > 0 && j1 <= j2 < j1 + n
    ensures |Stride(v, j2, n)| <= |Stride(v, j1, n)| <= |Stride(v, j2, n)| + 1
    decreases |v| - j1
  {
    if j1 == j2 {
    } else if j2 < |v| {
      StrideSizes(v, j2, j1 + n, n);
    } else if j1 < |v| {
      assert Stride(v, j1 + n, n) == [];
    }
  }

  /** `min(n, len v)` buckets, none empty, sizes within one of each other. */
  lemma BucketShape<T>(v: seq<T>, n: nat)
    requires n > 0
    ensures |Buckets(v, n)| == Min(n, |v|)
    ensures forall j :: 0 <= j < |Buckets(v, n)| ==> |Buckets(v, n)[j]| > 0
    ensures forall j1, j2 :: 0 <= j1 < |Buckets(v, n)| && 0 <= j2 < |Buckets(v, n)| ==>
              |Buckets(v, n)[j1]| <= |Buckets(v, n)[j2]| + 1
  {
    var bs := Buckets(v, n);
    forall j1, j2 | 0 <= j1 < |bs| && 0 <= j2 < |bs|
      ensures |bs[j1]| <= |bs[j2]| + 1
    {
      if j1 <= j2 { StrideSizes(v, j1, j2, n); } else { StrideSizes(v, j2, j1, n); }
    }
  }

  /** The buckets of keys `0 <= j < m`, concatenated. */
  function Gather<T>(v: seq<T>, n: nat, m: nat): seq<T>
    requires n > 0
  {
    if m == 0 then [] else Gather(v, n, m - 1) + Stride(v, m - 1, n)
  }

  lemma {:induction false} FlattenBuckets<T>(v: seq<T>, n: nat, m: nat)
    requires n > 0 && m <= Min(n, |v|)
    ensures Flatten(Buckets(v, n)[..m]) == Gather(v, n, m)
    decreases m
  {
    if m > 0 {
      var k := m - 1;
      var bs := Buckets(v, n);
      FlattenBuckets(v, n, k);
      assert bs[..m][..k] == bs[..k];
      assert bs[..m][k] == Stride(v, k, n);
      GatherUnfold(v, n, m);
    }
  }

  /** Skipping the first round of `n` elements shifts every key's bucket. */
  lemma {:induction false} StrideShift<T>(v: seq<T>, j: nat, n: nat)
    requires n > 0 && n <= |v|
    ensures Stride(v, j + n, n) == Stride(v[n..], j, n)
    decreases |v| - j
  {
    if j + n < |v| {
      StrideShift(v, j + n, n);
    }
  }

  /** Gathering the first `m` keys: the first element of each of those buckets,
      then the same gathering over the input with its first round removed. */
  lemma {:induction false} GatherRound<T>(v: seq<T>, n: nat, m: nat)
    requires 0 < n <= |v| && m <= n
    ensures multiset(Gather(v, n, m)) == multiset(v[..m]) + multiset(Gather(v[n..], n, m))
    decreases m
  {
    if m > 0 {
      var k := m - 1;
      GatherRound(v, n, k);
      StrideRound(v, n, k);
      GatherStep(v, n, m);
      GatherStep(v[n..], n, m);
      TakeStep(v, m);
      Regroup(multiset(Gather(v, n, k)), multiset(v[..k]), multiset(Gather(v[n..], n, k)),
              multiset(Stride(v, k, n)), multiset{v[k]}, multiset(Stride(v[n..], k, n)));
    }
  }

  /** The bucket of key `j` is its first element and the bucket of key `j` in
      the input with its first round removed. */
  lemma StrideRound<T>(v: seq<T>, n: nat, j: nat)
    requires 0 < n <= |v| && j < n
    ensures multiset(Stride(v, j, n)) == multiset{v[j]} + multiset(Stride(v[n..], j, n))
  {
    StrideShift(v, j, n);
    assert Stride(v, j, n) == [v[j]] + Stride(v[n..], j, n);
  }

  lemma GatherStep<T>(v: seq<T>, n: nat, m: nat)
    requires 0 < n && 0 < m
    ensures multiset(Gather(v, n, m)) == multiset(Gather(v, n, m - 1)) + multiset(Stride(v, m - 1, n))
  {
    GatherUnfold(v, n, m);
  }

  lemma GatherUnfold<T>(v: seq<T>, n: nat, m: nat)
    requires 0 < n && 0 < m
    ensures Gather(v, n, m) == Gather(v, n, m - 1) + Stride(v, m - 1, n)
  {
  }

  lemma TakeStep<T>(v: seq<T>, m: nat)
    requires 0 < m <= |v|
    ensures multiset(v[..m]) == multiset(v[..m - 1]) + multiset{v[m - 1]}
  {
    assert v[..m] == v[..m - 1] + [v[m - 1]];
  }

  lemma Regroup<T>(a: multiset<T>, b: multiset<T>, c: multiset<T>, h: multiset<T>, x: multiset<T>, t: multiset<T>)
    requires a == b + c && h == x + t
    ensures a + h == (b + x) + (c + t)
  {
  }

  /** With fewer than `n` elements left, each of the first `m` keys holds at most one. */
  lemma {:induction false} GatherLastRound<T>(v: seq<T>, n: nat, m: nat)
    requires 0 < n && |v| <= n && m <= n
    ensures Gather(v, n, m) == v[..Min(m, |v|)]
    decreases m
  {
    if m > 0 {
      GatherLastRound(v, n, m - 1);
      if m - 1 < |v| {
        assert Stride(v, m - 1 + n, n) == [];
        assert v[..m] == v[..m - 1] + [v[m - 1]];
      }
    }
  }

  lemma {:induction false} GatherAll<T>(v: seq<T>, n: nat)
    requires n > 0
    ensures multiset(Gather(v, n, n)) == multiset(v)
    decreases |v|
  {
    if |v| <= n {
      GatherLastRound(v, n, n);
      assert v[..|v|] == v;
    } else {
      GatherRound(v, n, n);
      GatherAll(v[n..], n);
      assert v == v[..n] + v[n..];
    }
  }

  /** Keys from `min(n, |v|)` up to `n` hold nothing. */
  lemma {:induction false} GatherEmptyTail<T>(v: seq<T>, n: nat, m: nat)
    requires 0 < n && Min(n, |v|) <= m <= n
    ensures Gather(v, n, m) == Gather(v, n, Min(n, |v|))
    decreases m
  {
    if m > Min(n, |v|) {
      GatherEmptyTail(v, n, m - 1);
    }
  }

  /** The buckets together are a permutation of the input. */
  lemma BucketsArePermutation<T>(v: seq<T>, n: nat)
    requires n > 0
    ensures multiset(Flatten(Buckets(v, n))) == multiset(v)
  {
    var bs := Buckets(v, n);
    FlattenBuckets(v, n, |bs|);
    assert bs[..|bs|] == bs;
    GatherEmptyTail(v, n, n);
    GatherAll(v, n);
  }
}
