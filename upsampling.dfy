/** `upsample`: every label group is cycled up to the size of the largest
    group, and the pooled result is shuffled. */
module Upsampling {
  import opened PyBase
  import opened Grouping
  import opened LabelCounts

  /** Python's list repetition `s * k`. */
  function Repeat<T>(s: seq<T>, k: nat): (r: seq<T>)
    ensures forall x | x in r :: x in s
  {
    if k == 0 then [] else s + Repeat(s, k - 1)
  }

  /** `m` elements taken cyclically from `g`: element `i` is `g[i mod |g|]`. */
  function Cycle<T>(g: seq<T>, m: nat): seq<T>
    requires g != []
  {
    seq(m, i requires 0 <= i < m => g[i % |g|])
  }

  /** The cyclic extension holds only elements of the group. */
  lemma CycleElements<T>(g: seq<T>, m: nat)
    requires g != []
    ensures forall e | e in Cycle(g, m) :: e in g
  {
    forall e | e in Cycle(g, m) ensures e in g {
      var i :| 0 <= i < m && Cycle(g, m)[i] == e;
      assert g[i % |g|] == e;
    }
  }

  /** `s * k` has `k * |s|` elements. */
  lemma {:induction false} RepeatLength<T>(s: seq<T>, k: nat)
    ensures |Repeat(s, k)| == k * |s|
  {
    if k > 0 {
      RepeatLength(s, k - 1);
      assert k * |s| == (k - 1) * |s| + |s|;
    }
  }

  /** Element `i` of `s * k` is `s[i mod |s|]`. */
  lemma {:induction false} RepeatAt<T>(s: seq<T>, k: nat, i: nat)
    requires s != [] && i < |Repeat(s, k)|
    ensures Repeat(s, k)[i] == s[i % |s|]
  {
    var n := |s|;
    if i < n {
      DivModUnique(i, n, 0, i);
    } else {
      RepeatAt(s, k - 1, i - n);
      ModShift(i, n);
    }
  }

  lemma ModShift(i: int, n: int)
    requires 0 < n
    ensures (i - n) % n == i % n
  {
    var q := i / n;
    assert i == q * n + i % n;
    assert i - n == (q - 1) * n + i % n;
    DivModUnique(i - n, n, q - 1, i % n);
  }

  /** Division with remainder is unique. */
  lemma DivModUnique(i: int, n: int, q: int, r: int)
    requires 0 <= r < n && i == q * n + r
    ensures i % n == r
  {
    var q', r' := i / n, i % n;
    assert i == q' * n + r';
    assert (q - q') * n == q * n - q' * n;
    if q < q' {
      assert (q' - q) * n == q' * n - q * n;
      MulAtLeast(q' - q, n);
    } else if q > q' {
      MulAtLeast(q - q', n);
    }
  }

  lemma MulAtLeast(a: int, n: int)
    requires a >= 1 && n > 0
    ensures a * n >= n
  {
    if a > 1 {
      MulAtLeast(a - 1, n);
      assert a * n == (a - 1) * n + n;
    }
  }

  /** The factor `max_cnts / n + 1` always yields at least `max_cnts` elements. */
  lemma ReplicationFactor(m: nat, n: nat)
    requires n > 0
    ensures (m / n + 1) * n > m
  {
    assert m == (m / n) * n + m % n;
    assert (m / n + 1) * n == (m / n) * n + n;
  }

  /** For any repetition count that yields at least `m` elements, the first
      `m` elements of the repetition are the cyclic extension of the group:
      the truncation point, not the factor, fixes the result. */
  lemma RepeatTruncated<T>(g: seq<T>, k: nat, m: nat)
    requires g != [] && k * |g| >= m
    ensures m <= |Repeat(g, k)|
    ensures Repeat(g, k)[..m] == Cycle(g, m)
  {
    RepeatLength(g, k);
    forall i | 0 <= i < m ensures Repeat(g, k)[i] == g[i % |g|] {
      RepeatAt(g, k, i);
    }
  }

  /** `(g * int(m / len(g) + 1))[:m]`, the up-sampled group,
      is the cyclic extension of `g` to `m` elements. */
  lemma UpsampledGroup<T>(g: seq<T>, m: nat)
    requires g != []
    ensures m / |g| >= 0
    ensures m <= |Repeat(g, m / |g| + 1)|
    ensures Repeat(g, m / |g| + 1)[..m] == Cycle(g, m)
  {
    ReplicationFactor(m, |g|);
    RepeatTruncated(g, m / |g| + 1, m);
  }

  /** The up-sampled groups for the labels `ks`, concatenated in label order. */
  function Pool<K, T>(ks: seq<K>, lists: map<K, seq<T>>, m: nat): seq<T>
    requires forall k | k in ks :: k in lists && lists[k] != []
  {
    if ks == [] then []
    else Pool(ks[..|ks| - 1], lists, m) + Cycle(lists[ks[|ks| - 1]], m)
  }

  /** The pool that `upsample` shuffles, or the error it raises. */
  function StratifiedPool<V(==)>(samples: seq<seq<V>>, labelcol: int): (r: Result<seq<seq<V>>>)
    ensures r.Failure? <==> samples == [] || exists s :: s in samples && !HasIndex(s, labelcol)
    ensures r.Failure? ==> (r.error == IndexError <==> exists s :: s in samples && !HasIndex(s, labelcol))
  {
    match GroupSamples(samples, labelcol)
    case Failure(e) => Failure(e)
    case Success((groups, labelcnts)) =>
      match MaxCount(groups.keys, labelcnts)
      case None => Failure(ValueError)
      case Some(maxCnts) => Success(Pool(groups.keys, groups.lists, maxCnts))
  }

  /** The list with the elements at positions `i` and `j` exchanged. */
  function Swap<T>(s: seq<T>, i: nat, j: nat): seq<T>
    requires i < |s| && j < |s|
  {
    s[i := s[j]][j := s[i]]
  }

  /** The list after the exchanges `rand.shuffle` makes at positions
      `len(s) - 1` down to `i`: position `p` is exchanged with position
      `rand(p) mod (p + 1)`, where `rand(p)` is the generator's draw for
      position `p`. The whole shuffle stops at position 1. */
  function FisherYates<T>(s: seq<T>, rand: nat -> nat, i: nat): (r: seq<T>)
    ensures |r| == |s|
    decreases |s| - i
  {
    if i >= |s| then s else Swap(FisherYates(s, rand, i + 1), i, rand(i) % (i + 1))
  }

  /** Whatever the draws, the exchanges only reorder the list. */
  lemma {:induction false} FisherYatesPermutation<T>(s: seq<T>, rand: nat -> nat, i: nat)
    ensures multiset(FisherYates(s, rand, i)) == multiset(s)
    decreases |s| - i
  {
    if i < |s| {
      FisherYatesPermutation(s, rand, i + 1);
      SwapPermutation(FisherYates(s, rand, i + 1), i, rand(i) % (i + 1));
    }
  }

  lemma SwapPermutation<T>(s: seq<T>, i: nat, j: nat)
    requires i < |s| && j < |s|
    ensures multiset(Swap(s, i, j)) == multiset(s)
  {
    var t := s[i := s[j]];
    assert multiset(t) == multiset(s) - multiset{s[i]} + multiset{s[j]};
    assert multiset(t[j := s[i]]) == multiset(t) - multiset{t[j]} + multiset{s[i]};
  }

  /** `rand.shuffle(x)`: the list is copied into an array that is shuffled
      in place, from the last position down to position 1. The result is
      the one the draws determine, so the same generator gives the same
      order, and it is a permutation of the list. */
  method Shuffle<T>(x: seq<T>, rand: nat -> nat) returns (shuffled: seq<T>)
    ensures shuffled == FisherYates(x, rand, 1)
    ensures |shuffled| == |x| && multiset(shuffled) == multiset(x)
  {
    var a := new T[|x|](i requires 0 <= i < |x| => x[i]);
    assert a[..] == x;
    var i := a.Length - 1;
    while i > 0
      invariant -1 <= i < a.Length
      invariant a[..] == FisherYates(x, rand, i + 1)
    {
      var j := rand(i) % (i + 1);
      a[i], a[j] := a[j], a[i];
      i := i - 1;
    }
    shuffled := a[..];
    FisherYatesPermutation(x, rand, 1);
  }

  /** `upsample(samples, labelcol, rand)`: cycles each label group to the
      largest group's size, then shuffles the pool with the generator. The
      result is the shuffle the draws determine, so the same generator
      gives the same result. */
  method Upsample<V(==)>(samples: seq<seq<V>>, labelcol: int, rand: nat -> nat)
    returns (r: Result<seq<seq<V>>>)
    ensures match StratifiedPool(samples, labelcol)
      case Failure(e) => r == Failure(e)
      case Success(pool) => r == Success(FisherYates(pool, rand, 1)) && multiset(r.value) == multiset(pool)
  {
    r := Stratify(samples, labelcol);
    if r.Success? {
      var shuffled := Shuffle(r.value, rand);
      r := Success(shuffled);
    }
  }

  /** Lines 76-81 of `upsample`: group and count the samples, take the
      largest count, and pool the up-sampled groups. */
  method Stratify<V(==)>(samples: seq<seq<V>>, labelcol: int) returns (r: Result<seq<seq<V>>>)
    ensures r == StratifiedPool(samples, labelcol)
  {
    var gs := GroupSamples(samples, labelcol);
    if gs.Failure? {
      return Failure(gs.error);
    }
    var groups, labelcnts := gs.value.0, gs.value.1;
    assert forall k | k in groups.keys :: k in groups.lists && groups.lists[k] != [];
    var mx := MaxCount(groups.keys, labelcnts);
    if mx.None? {
      return Failure(ValueError);
    }
    var maxCnts := mx.value;
    var stratified := PoolGroups(groups.keys, groups.lists, maxCnts);
    r := Success(stratified);
  }

  /** The loop of `upsample` that extends `stratified` by the first
      `max_cnts` elements of each group repeated `max_cnts / len + 1` times. */
  method PoolGroups<K, T>(ks: seq<K>, lists: map<K, seq<T>>, maxCnts: nat) returns (stratified: seq<T>)
    requires forall k | k in ks :: k in lists && lists[k] != []
    ensures stratified == Pool(ks, lists, maxCnts)
  {
    stratified := [];
    var i := 0;
    while i < |ks|
      invariant 0 <= i <= |ks|
      invariant stratified == Pool(ks[..i], lists, maxCnts)
    {
      var group := lists[ks[i]];
      UpsampledGroup(group, maxCnts);
      var extended := Repeat(group, maxCnts / |group| + 1);
      stratified := stratified + extended[..maxCnts];
      PoolStep(ks, lists, maxCnts, i);
      i := i + 1;
    }
    assert ks[..i] == ks;
  }

  /** The pool for one more label extends the pool by that label's group. */
  lemma PoolStep<K, T>(ks: seq<K>, lists: map<K, seq<T>>, m: nat, i: nat)
    requires forall k | k in ks :: k in lists && lists[k] != []
    requires i < |ks|
    ensures Pool(ks[..i + 1], lists, m) == Pool(ks[..i], lists, m) + Cycle(lists[ks[i]], m)
  {
    assert ks[..i + 1][..i] == ks[..i];
  }

  /** The pool has `m` elements per label. */
  lemma {:induction false} PoolLength<K, T>(ks: seq<K>, lists: map<K, seq<T>>, m: nat)
    requires forall k | k in ks :: k in lists && lists[k] != []
    ensures |Pool(ks, lists, m)| == m * |ks|
  {
    if ks != [] {
      PoolLength(ks[..|ks| - 1], lists, m);
      assert m * |ks| == m * (|ks| - 1) + m;
    }
  }

  /** Every pooled element comes from one of the groups. */
  lemma {:induction false} PoolElements<K, T>(ks: seq<K>, lists: map<K, seq<T>>, m: nat, x: T)
    requires forall k | k in ks :: k in lists && lists[k] != []
    requires x in Pool(ks, lists, m)
    ensures exists k :: k in ks && x in lists[k]
  {
    var pre := ks[..|ks| - 1];
    var last := ks[|ks| - 1];
    if x in Pool(pre, lists, m) {
      PoolElements(pre, lists, m, x);
      var k :| k in pre && x in lists[k];
      assert k in ks;
    } else {
      CycleElements(lists[last], m);
    }
  }

  /** The elements with label `l` in the pool are the up-sampled group of
      `l`, and there are none for a label without a group. */
  lemma {:induction false} PoolSelect<K, T>(ks: seq<K>, lists: map<K, seq<T>>, m: nat, key: T --> K, l: K)
    requires ListedUnderKey(ks, lists, key) && Distinct(ks)
    ensures KeyDefined(Pool(ks, lists, m), key)
    ensures Select(Pool(ks, lists, m), key, l) == if l in ks then Cycle(lists[l], m) else []
  {
    if ks != [] {
      var pre := ks[..|ks| - 1];
      var last := ks[|ks| - 1];
      assert ListedUnderKey(pre, lists, key);
      var p := Pool(pre, lists, m);
      var c := Cycle(lists[last], m);
      assert Pool(ks, lists, m) == p + c;
      PoolSelect(pre, lists, m, key, l);
      CycleListed(ks, lists, m, key, last);
      SelectUniform(c, key, last, l);
      SelectAppend(p, c, key, l);
      assert last !in pre;
      assert l in ks <==> l in pre || l == last;
    }
  }

  /** The up-sampled group of a listed key holds only elements with that key. */
  lemma CycleListed<K, T>(ks: seq<K>, lists: map<K, seq<T>>, m: nat, key: T --> K, k: K)
    requires ListedUnderKey(ks, lists, key) && k in ks
    ensures forall e | e in Cycle(lists[k], m) :: key.requires(e) && key(e) == k
  {
    CycleElements(lists[k], m);
  }

  /** The up-sampling promise: any reordering of the pool (in particular
      the shuffled result of Upsample) has `max_cnts * number_of_labels`
      samples, exactly `max_cnts` with each input label and none with any
      other label, and holds only input samples. */
  lemma UpsampleBalanced<V>(samples: seq<seq<V>>, labelcol: int, out: seq<seq<V>>, l: V)
    requires StratifiedPool(samples, labelcol).Success?
    requires multiset(out) == multiset(StratifiedPool(samples, labelcol).value)
    ensures GroupSamples(samples, labelcol).Success?
    ensures var (groups, labelcnts) := GroupSamples(samples, labelcol).value;
      MaxCount(groups.keys, labelcnts).Some? &&
      var maxCnts := MaxCount(groups.keys, labelcnts).value;
      var key := LabelKey<V>(labelcol);
      |out| == maxCnts * |groups.keys| &&
      KeyDefined(out, key) &&
      |Select(out, key, l)| == (if l in groups.keys then maxCnts else 0) &&
      (forall x | x in out :: x in samples)
  {
    var (groups, labelcnts) := GroupSamples(samples, labelcol).value;
    var maxCnts := MaxCount(groups.keys, labelcnts).value;
    var key := LabelKey<V>(labelcol);
    var pool := Pool(groups.keys, groups.lists, maxCnts);
    assert KeyDefined(samples, key);
    GroupOfShape(samples, key);
    assert ListedUnderKey(groups.keys, groups.lists, key);
    PoolLength(groups.keys, groups.lists, maxCnts);
    PoolSelect(groups.keys, groups.lists, maxCnts, key, l);
    SelectPermutation(pool, out, key, l);
    assert |multiset(out)| == |out|;
    forall x | x in out ensures x in samples {
      assert x in multiset(pool);
      PoolElements(groups.keys, groups.lists, maxCnts, x);
    }
  }
}
