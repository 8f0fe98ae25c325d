/** `random_downsample`: from every label group the generator draws, without
    replacement, as many samples as the smallest group has, and the draws
    are concatenated in group order. */
module Downsampling {
  import opened PyBase
  import opened Grouping
  import opened LabelCounts

  /** What `rand.sample(population, m)` returns, as positions: `m` distinct
      positions of a population of size `n`. */
  predicate IsDraw(d: seq<nat>, n: nat, m: nat)
  {
    |d| == m &&
    (forall j | 0 <= j < |d| :: d[j] < n) &&
    forall a, b | 0 <= a < b < |d| :: d[a] != d[b]
  }

  /** The elements of `g` at the drawn positions, in draw order. */
  function Pick<T>(g: seq<T>, d: seq<nat>): (r: seq<T>)
    requires forall j | 0 <= j < |d| :: d[j] < |g|
    ensures |r| == |d| && forall x | x in r :: x in g
  {
    seq(|d|, j requires 0 <= j < |d| => g[d[j]])
  }

  /** One draw of `m` positions per group, for the groups of `ks` in order. */
  predicate DrawsFit<K(==), T>(ks: seq<K>, lists: map<K, seq<T>>, draws: seq<seq<nat>>, m: nat)
  {
    |draws| == |ks| &&
    forall i | 0 <= i < |ks| :: ks[i] in lists && IsDraw(draws[i], |lists[ks[i]]|, m)
  }

  /** The draws concatenated in group order: the list comprehension
      `[s for e in groups.values() for s in rand.sample(e, min_cnts)]`. */
  function Blocks<K(==), T>(ks: seq<K>, lists: map<K, seq<T>>, draws: seq<seq<nat>>, m: nat): (r: seq<T>)
    requires DrawsFit(ks, lists, draws, m)
  {
    if ks == [] then []
    else
      var n := |ks| - 1;
      assert DrawsFit(ks[..n], lists, draws[..n], m);
      Blocks(ks[..n], lists, draws[..n], m) + Pick(lists[ks[n]], draws[n])
  }

  /** The generator's draws fit the groups `random_downsample` forms: one
      draw of `min_cnts` distinct positions per group, in group order. */
  predicate DrawsMatch<V(==)>(samples: seq<seq<V>>, labelcol: int, draws: seq<seq<nat>>)
  {
    match GroupSamples(samples, labelcol)
    case Failure(_) => true
    case Success((groups, labelcnts)) =>
      match MinCount(groups.keys, labelcnts)
      case None => true
      case Some(minCnts) => DrawsFit(groups.keys, groups.lists, draws, minCnts)
  }

  /** `random_downsample(samples, labelcol, rand)`, with `draws[i]` the
      positions `rand.sample` picks from the `i`-th group. The result holds
      no sample more often than the input does. */
  function Downsample<V(==)>(samples: seq<seq<V>>, labelcol: int, draws: seq<seq<nat>>)
    : (r: Result<seq<seq<V>>>)
    requires DrawsMatch(samples, labelcol, draws)
    ensures r.Failure? <==> samples == [] || exists s :: s in samples && !HasIndex(s, labelcol)
    ensures r.Failure? ==> (r.error == IndexError <==> exists s :: s in samples && !HasIndex(s, labelcol))
    ensures r.Success? ==> multiset(r.value) <= multiset(samples)
  {
    match GroupSamples(samples, labelcol)
    case Failure(e) => Failure(e)
    case Success((groups, labelcnts)) =>
      match MinCount(groups.keys, labelcnts)
      case None => Failure(ValueError)
      case Some(minCnts) =>
        var out := Blocks(groups.keys, groups.lists, draws, minCnts);
        BlocksSubMultiset(groups.keys, groups.lists, draws, minCnts);
        GroupSamplesPartition(samples, labelcol);
        Success(out)
  }

  /** Picking at positions `a + b` picks at `a`, then at `b`. */
  lemma PickAppend<T>(g: seq<T>, a: seq<nat>, b: seq<nat>)
    requires forall j | 0 <= j < |a| :: a[j] < |g|
    requires forall j | 0 <= j < |b| :: b[j] < |g|
    ensures forall j | 0 <= j < |a + b| :: (a + b)[j] < |g|
    ensures Pick(g, a + b) == Pick(g, a) + Pick(g, b)
  {
  }

  /** Taking position `p` out of a draw takes its element out of the picks. */
  lemma PickRemove<T>(g: seq<T>, d: seq<nat>, p: nat)
    requires forall j | 0 <= j < |d| :: d[j] < |g|
    requires p < |d|
    ensures var d' := d[..p] + d[p + 1..];
      (forall j | 0 <= j < |d'| :: d'[j] < |g|) &&
      multiset(Pick(g, d)) == multiset(Pick(g, d')) + multiset{g[d[p]]}
  {
    var pre, mid, post := d[..p], [d[p]], d[p + 1..];
    assert d == pre + (mid + post);
    PickAppend(g, pre, mid + post);
    PickAppend(g, mid, post);
    PickAppend(g, pre, post);
    assert Pick(g, mid) == [g[d[p]]];
    assert multiset(Pick(g, d)) == multiset(Pick(g, pre)) + multiset{g[d[p]]} + multiset(Pick(g, post));
  }

  /** A draw from `n + 1` positions that uses position `n` is, without it,
      a draw from `n` positions. */
  lemma DrawRemove(d: seq<nat>, n: nat, p: nat)
    requires IsDraw(d, n + 1, |d|) && p < |d| && d[p] == n
    ensures IsDraw(d[..p] + d[p + 1..], n, |d| - 1)
  {
    var d' := d[..p] + d[p + 1..];
    forall j | 0 <= j < |d'| ensures d'[j] < n {
      if j < p {
        assert d'[j] == d[j];
      } else {
        assert d'[j] == d[j + 1];
      }
    }
    forall a, b | 0 <= a < b < |d'| ensures d'[a] != d'[b] {
      if b < p {
        assert d'[a] == d[a] && d'[b] == d[b];
      } else if a < p {
        assert d'[a] == d[a] && d'[b] == d[b + 1];
      } else {
        assert d'[a] == d[a + 1] && d'[b] == d[b + 1];
      }
    }
  }

  /** A draw without replacement takes no element more often than the
      population holds it. */
  lemma {:induction false} PickSubMultiset<T>(g: seq<T>, d: seq<nat>)
    requires IsDraw(d, |g|, |d|)
    ensures multiset(Pick(g, d)) <= multiset(g)
  {
    if g != [] {
      var n := |g| - 1;
      var g' := g[..n];
      assert g == g' + [g[n]];
      if p :| 0 <= p < |d| && d[p] == n {
        var d' := d[..p] + d[p + 1..];
        DrawRemove(d, n, p);
        PickRemove(g, d, p);
        PickSubMultiset(g', d');
        assert Pick(g, d') == Pick(g', d');
      } else {
        assert forall j | 0 <= j < |d| :: d[j] < n;
        PickSubMultiset(g', d);
        assert Pick(g, d) == Pick(g', d);
      }
    }
  }

  /** Drawing as many elements as the population has takes all of them. */
  lemma PickAll<T>(g: seq<T>, d: seq<nat>)
    requires IsDraw(d, |g|, |g|)
    ensures multiset(Pick(g, d)) == multiset(g)
  {
    PickSubMultiset(g, d);
    var a, b := multiset(Pick(g, d)), multiset(g);
    assert |a| == |b|;
    assert b == a + (b - a);
    assert |b - a| == 0;
  }

  /** The concatenated draws take no sample more often than the groups
      hold it; when every group has exactly `m` elements they take every
      sample of the groups. */
  lemma {:induction false} BlocksSubMultiset<K, T>(ks: seq<K>, lists: map<K, seq<T>>, draws: seq<seq<nat>>, m: nat)
    requires DrawsFit(ks, lists, draws, m)
    ensures multiset(Blocks(ks, lists, draws, m)) <= multiset(Flatten(ks, lists))
    ensures (forall k | k in ks :: |lists[k]| == m) ==>
      multiset(Blocks(ks, lists, draws, m)) == multiset(Flatten(ks, lists))
  {
    if ks != [] {
      var n := |ks| - 1;
      assert DrawsFit(ks[..n], lists, draws[..n], m);
      BlocksSubMultiset(ks[..n], lists, draws[..n], m);
      PickSubMultiset(lists[ks[n]], draws[n]);
      if forall k | k in ks :: |lists[k]| == m {
        PickAll(lists[ks[n]], draws[n]);
      }
    }
  }

  /** The concatenated draws have `m` elements per group. */
  lemma {:induction false} BlocksLength<K, T>(ks: seq<K>, lists: map<K, seq<T>>, draws: seq<seq<nat>>, m: nat)
    requires DrawsFit(ks, lists, draws, m)
    ensures |Blocks(ks, lists, draws, m)| == m * |ks|
  {
    if ks != [] {
      var n := |ks| - 1;
      assert DrawsFit(ks[..n], lists, draws[..n], m);
      BlocksLength(ks[..n], lists, draws[..n], m);
      assert m * |ks| == m * n + m;
    }
  }

  /** The draws for the first `i` groups are a prefix of all the draws. */
  lemma {:induction false} BlocksPrefix<K, T>(ks: seq<K>, lists: map<K, seq<T>>, draws: seq<seq<nat>>, m: nat, i: nat)
    requires DrawsFit(ks, lists, draws, m) && i <= |ks|
    ensures DrawsFit(ks[..i], lists, draws[..i], m)
    ensures Blocks(ks[..i], lists, draws[..i], m) <= Blocks(ks, lists, draws, m)
  {
    assert DrawsFit(ks[..i], lists, draws[..i], m);
    if i < |ks| {
      var n := |ks| - 1;
      assert DrawsFit(ks[..n], lists, draws[..n], m);
      BlocksPrefix(ks[..n], lists, draws[..n], m, i);
      assert ks[..n][..i] == ks[..i] && draws[..n][..i] == draws[..i];
    } else {
      assert ks[..i] == ks && draws[..i] == draws;
    }
  }

  /** The `i`-th run of `m` results is the draw from the `i`-th group. */
  lemma BlockAt<K, T>(ks: seq<K>, lists: map<K, seq<T>>, draws: seq<seq<nat>>, m: nat, i: nat)
    requires DrawsFit(ks, lists, draws, m) && i < |ks|
    ensures |Blocks(ks, lists, draws, m)| == m * |ks|
    ensures m * i + m <= m * |ks|
    ensures Blocks(ks, lists, draws, m)[m * i..m * i + m] == Pick(lists[ks[i]], draws[i])
  {
    BlocksLength(ks, lists, draws, m);
    BlocksPrefix(ks, lists, draws, m, i + 1);
    BlocksSnoc(ks, lists, draws, m, i);
    BlocksPrefix(ks, lists, draws, m, i);
    BlocksLength(ks[..i], lists, draws[..i], m);
    var b, p, c := Blocks(ks, lists, draws, m), Blocks(ks[..i], lists, draws[..i], m), Pick(lists[ks[i]], draws[i]);
    assert p + c <= b;
    assert |c| == m;
    Arith(m, i, |ks|);
    assert b[|p|..|p| + |c|] == c;
  }

  lemma Arith(m: nat, i: nat, n: nat)
    requires i < n
    ensures m * i + m <= m * n
  {
    assert m * (i + 1) == m * i + m;
    MulMono(m, i + 1, n);
  }

  /** The draws for the first `i + 1` groups extend those for the first `i`
      by the draw from group `i`. */
  lemma BlocksSnoc<K, T>(ks: seq<K>, lists: map<K, seq<T>>, draws: seq<seq<nat>>, m: nat, i: nat)
    requires DrawsFit(ks, lists, draws, m) && i < |ks|
    ensures DrawsFit(ks[..i], lists, draws[..i], m) && DrawsFit(ks[..i + 1], lists, draws[..i + 1], m)
    ensures Blocks(ks[..i + 1], lists, draws[..i + 1], m) ==
      Blocks(ks[..i], lists, draws[..i], m) + Pick(lists[ks[i]], draws[i])
  {
    var ks', ds' := ks[..i + 1], draws[..i + 1];
    assert ks'[..i] == ks[..i] && ds'[..i] == draws[..i];
    assert DrawsFit(ks[..i], lists, draws[..i], m);
    assert DrawsFit(ks', lists, ds', m);
  }

  lemma MulMono(m: nat, a: nat, b: nat)
    requires a <= b
    ensures m * a <= m * b
  {
    assert m * b == m * a + m * (b - a);
  }

  /** The samples with label `l` among the draws are the draw from the group
      of `l`, and there are none for a label without a group. */
  lemma {:induction false} BlocksSelect<K, T>(ks: seq<K>, lists: map<K, seq<T>>, draws: seq<seq<nat>>, m: nat, key: T --> K, i: nat)
    requires DrawsFit(ks, lists, draws, m) && ListedUnderKey(ks, lists, key) && Distinct(ks)
    ensures KeyDefined(Blocks(ks, lists, draws, m), key)
    ensures forall l | l !in ks :: Select(Blocks(ks, lists, draws, m), key, l) == []
    ensures i < |ks| ==> Select(Blocks(ks, lists, draws, m), key, ks[i]) == Pick(lists[ks[i]], draws[i])
  {
    if ks != [] {
      var n := |ks| - 1;
      var last := ks[n];
      assert DrawsFit(ks[..n], lists, draws[..n], m);
      assert ListedUnderKey(ks[..n], lists, key);
      var p := Blocks(ks[..n], lists, draws[..n], m);
      var c := Pick(lists[last], draws[n]);
      BlocksSelect(ks[..n], lists, draws[..n], m, key, i);
      PickListed(ks, lists, key, n, draws[n]);
      SelectAppendUniform(p, c, key, last);
      assert last !in ks[..n];
      if i < n {
        assert ks[i] == ks[..n][i] && draws[i] == draws[..n][i];
        assert ks[i] != last;
      } else if i == n {
        assert last !in ks[..n];
      }
    }
  }

  /** Appending elements that all have key `k0` appends them to the
      selection for `k0` and leaves the other selections unchanged. */
  lemma SelectAppendUniform<T, K>(p: seq<T>, c: seq<T>, key: T --> K, k0: K)
    requires KeyDefined(p, key)
    requires forall e | e in c :: key.requires(e) && key(e) == k0
    ensures KeyDefined(p + c, key)
    ensures forall l :: Select(p + c, key, l) == Select(p, key, l) + (if l == k0 then c else [])
  {
    forall l ensures Select(p + c, key, l) == Select(p, key, l) + (if l == k0 then c else []) {
      SelectUniform(c, key, k0, l);
      SelectAppend(p, c, key, l);
    }
  }

  /** The down-sampling promise: `min_cnts * number_of_labels` samples,
      exactly `min_cnts` with each input label and none with any other, and
      those with label `l` are drawn without replacement from the samples
      labelled `l`. */
  lemma DownsampleBalanced<V>(samples: seq<seq<V>>, labelcol: int, draws: seq<seq<nat>>, l: V)
    requires DrawsMatch(samples, labelcol, draws)
    requires Downsample(samples, labelcol, draws).Success?
    ensures GroupSamples(samples, labelcol).Success?
    ensures var (groups, labelcnts) := GroupSamples(samples, labelcol).value;
      MinCount(groups.keys, labelcnts).Some? &&
      var minCnts := MinCount(groups.keys, labelcnts).value;
      var out := Downsample(samples, labelcol, draws).value;
      var key := LabelKey<V>(labelcol);
      |out| == minCnts * |groups.keys| &&
      KeyDefined(out, key) && KeyDefined(samples, key) &&
      |Select(out, key, l)| == (if l in groups.keys then minCnts else 0) &&
      multiset(Select(out, key, l)) <= multiset(Select(samples, key, l))
  {
    var (groups, labelcnts) := GroupSamples(samples, labelcol).value;
    var minCnts := MinCount(groups.keys, labelcnts).value;
    var out := Downsample(samples, labelcol, draws).value;
    var key := LabelKey<V>(labelcol);
    assert KeyDefined(samples, key);
    GroupOfShape(samples, key);
    assert ListedUnderKey(groups.keys, groups.lists, key);
    BlocksLength(groups.keys, groups.lists, draws, minCnts);
    if i :| 0 <= i < |groups.keys| && groups.keys[i] == l {
      BlocksSelect(groups.keys, groups.lists, draws, minCnts, key, i);
      PickSubMultiset(groups.lists[l], draws[i]);
    } else {
      BlocksSelect(groups.keys, groups.lists, draws, minCnts, key, 0);
    }
  }

  /** The result is one run of `min_cnts` samples per label, in the order of
      the groups (first-occurrence order of the labels): run `i` is the draw
      from group `i`, and all its samples carry label `i`. */
  lemma DownsampleRuns<V>(samples: seq<seq<V>>, labelcol: int, draws: seq<seq<nat>>, i: nat,
                          groups: Groups<V, seq<V>>, labelcnts: map<V, nat>, m: nat, out: seq<seq<V>>)
    requires DrawsMatch(samples, labelcol, draws)
    requires GroupSamples(samples, labelcol) == Success((groups, labelcnts))
    requires MinCount(groups.keys, labelcnts) == Some(m)
    requires Downsample(samples, labelcol, draws) == Success(out)
    requires i < |groups.keys|
    ensures 0 <= m * i && m * i + m <= |out|
    ensures out[m * i..m * i + m] == Pick(groups.lists[groups.keys[i]], draws[i])
    ensures forall s | s in out[m * i..m * i + m] :: HasIndex(s, labelcol) && At(s, labelcol) == groups.keys[i]
  {
    DownsampleIsBlocks(samples, labelcol, draws, groups, labelcnts, m, out);
    BlockRun(groups.keys, groups.lists, draws, m, LabelKey<V>(labelcol), i);
    var run := out[m * i..m * i + m];
    forall s | s in run ensures s in samples {
      assert s in multiset(out);
    }
    LabelledRun(samples, run, labelcol, groups.keys[i]);
  }

  /** The down-sampled samples are the draws from the label groups,
      concatenated, and each group lists samples with its label. */
  lemma DownsampleIsBlocks<V>(samples: seq<seq<V>>, labelcol: int, draws: seq<seq<nat>>,
                              groups: Groups<V, seq<V>>, labelcnts: map<V, nat>, m: nat, out: seq<seq<V>>)
    requires DrawsMatch(samples, labelcol, draws)
    requires GroupSamples(samples, labelcol) == Success((groups, labelcnts))
    requires MinCount(groups.keys, labelcnts) == Some(m)
    requires Downsample(samples, labelcol, draws) == Success(out)
    ensures DrawsFit(groups.keys, groups.lists, draws, m)
    ensures ListedUnderKey(groups.keys, groups.lists, LabelKey<V>(labelcol))
    ensures out == Blocks(groups.keys, groups.lists, draws, m)
  {
    var key := LabelKey<V>(labelcol);
    assert KeyDefined(samples, key);
    GroupOfShape(samples, key);
  }

  /** Samples whose label key is `l` hold `l` at the label column. */
  lemma LabelledRun<V>(samples: seq<seq<V>>, run: seq<seq<V>>, labelcol: int, l: V)
    requires GroupSamples(samples, labelcol).Success?
    requires forall s | s in run :: s in samples && LabelKey<V>(labelcol).requires(s) && LabelKey<V>(labelcol)(s) == l
    ensures forall s | s in run :: HasIndex(s, labelcol) && At(s, labelcol) == l
  {
    forall s | s in run ensures HasIndex(s, labelcol) && At(s, labelcol) == l {
      LabelKeyAt(labelcol, s);
    }
  }

  /** Run `i` of the concatenated draws is the draw from group `i`, and
      every element in it has the key of group `i`. */
  lemma BlockRun<K, T>(ks: seq<K>, lists: map<K, seq<T>>, draws: seq<seq<nat>>, m: nat, key: T --> K, i: nat)
    requires DrawsFit(ks, lists, draws, m) && ListedUnderKey(ks, lists, key) && i < |ks|
    ensures 0 <= m * i && m * i + m <= |Blocks(ks, lists, draws, m)|
    ensures Blocks(ks, lists, draws, m)[m * i..m * i + m] == Pick(lists[ks[i]], draws[i])
    ensures forall s | s in Blocks(ks, lists, draws, m)[m * i..m * i + m] :: key.requires(s) && key(s) == ks[i]
  {
    BlockAt(ks, lists, draws, m, i);
    MulMono(m, 0, i);
    PickListed(ks, lists, key, i, draws[i]);
  }

  /** A draw from the group listed under a key holds only elements with
      that key. */
  lemma PickListed<K, T>(ks: seq<K>, lists: map<K, seq<T>>, key: T --> K, i: nat, d: seq<nat>)
    requires ListedUnderKey(ks, lists, key) && i < |ks|
    requires forall j | 0 <= j < |d| :: d[j] < |lists[ks[i]]|
    ensures forall s | s in Pick(lists[ks[i]], d) :: key.requires(s) && key(s) == ks[i]
  {
    var g := lists[ks[i]];
    forall s | s in Pick(g, d) ensures key.requires(s) && key(s) == ks[i] {
      var j :| 0 <= j < |d| && Pick(g, d)[j] == s;
      assert s in g;
    }
  }

  /** Down-sampling samples whose label groups all have the smallest size
      already returns every sample, exactly as often as the input has it. */
  lemma DownsampleBalancedInput<V>(samples: seq<seq<V>>, labelcol: int, draws: seq<seq<nat>>)
    requires DrawsMatch(samples, labelcol, draws)
    requires Downsample(samples, labelcol, draws).Success?
    requires var (groups, labelcnts) := GroupSamples(samples, labelcol).value;
      forall k | k in labelcnts :: labelcnts[k] == labelcnts[groups.keys[0]]
    ensures multiset(Downsample(samples, labelcol, draws).value) == multiset(samples)
  {
    var (groups, labelcnts) := GroupSamples(samples, labelcol).value;
    var m := MinCount(groups.keys, labelcnts).value;
    BlocksSubMultiset(groups.keys, groups.lists, draws, m);
    GroupSamplesPartition(samples, labelcol);
  }
}
