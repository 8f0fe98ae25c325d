/** `group_samples`: samples grouped by the value in their label column,
    together with the `Counter` of label frequencies; and the `max`/`min`
    over that counter that the resamplers take. */
module LabelCounts {
  import opened PyBase
  import opened Grouping

  /** `collections.Counter` over the keys of `es`: how often each key occurs. */
  function Counts<T, K(==)>(es: seq<T>, key: T --> K): (r: map<K, nat>)
    requires KeyDefined(es, key)
    ensures forall e | e in es :: key(e) in r
    ensures forall k | k in r :: 0 < r[k] <= |es|
  {
    if es == [] then map[]
    else
      var cnt := Counts(es[..|es| - 1], key);
      var k := key(es[|es| - 1]);
      cnt[k := if k in cnt then cnt[k] + 1 else 1]
  }

  /** The key function `lambda s: s[labelcol]`. */
  function LabelKey<V>(labelcol: int): seq<V> --> V
  {
    (s: seq<V>) requires HasIndex(s, labelcol) => At(s, labelcol)
  }

  /** On a sample with a label column the label key gives the element
      there. */
  lemma LabelKeyAt<V>(labelcol: int, s: seq<V>)
    requires HasIndex(s, labelcol)
    ensures LabelKey<V>(labelcol).requires(s) && LabelKey<V>(labelcol)(s) == At(s, labelcol)
  {
  }

  /** Every sample has a label column. */
  predicate AllLabelled<V(==)>(samples: seq<seq<V>>, labelcol: int)
  {
    forall s | s in samples :: HasIndex(s, labelcol)
  }

  /** `group_samples(samples, labelcol)`: the Counter is built first, so a
      sample without the label column raises IndexError. */
  function GroupSamples<V(==)>(samples: seq<seq<V>>, labelcol: int)
    : (r: Result<(Groups<V, seq<V>>, map<V, nat>)>)
    ensures r.Failure? <==> exists s :: s in samples && !HasIndex(s, labelcol)
    ensures r.Failure? ==> r.error == IndexError
    ensures r.Success? ==>
      var (groups, labelcnts) := r.value;
      (forall l | l in labelcnts :: l in groups.keys) &&
      (forall l | l in groups.keys :: l in labelcnts) &&
      groups.lists.Keys == labelcnts.Keys &&
      (forall l | l in labelcnts :: labelcnts[l] == |groups.lists[l]| > 0) &&
      (groups.keys == [] <==> samples == [])
  {
    if AllLabelled(samples, labelcol) then
      var key := LabelKey<V>(labelcol);
      assert KeyDefined(samples, key);
      var groups := GroupOf(samples, key);
      var labelcnts := Counts(samples, key);
      CountsMatchGroups(samples, key);
      GroupOfShape(samples, key);
      KeysEmpty(samples, key);
      Success((groups, labelcnts))
    else
      Failure(IndexError)
  }

  /** The counter agrees with the grouping: it counts exactly the listed
      keys, each as often as its group is long. */
  lemma {:induction false} CountsMatchGroups<T, K>(es: seq<T>, key: T --> K)
    requires KeyDefined(es, key)
    ensures forall k | k in Counts(es, key) :: k in Keys(es, key)
    ensures forall k | k in Keys(es, key) :: k in Counts(es, key)
    ensures forall k | k in Counts(es, key) :: Counts(es, key)[k] == |Select(es, key, k)|
  {
    if es != [] {
      var pre := es[..|es| - 1];
      CountsMatchGroups(pre, key);
      var last := es[|es| - 1];
      var cnt := Counts(pre, key);
      assert Counts(es, key) == cnt[key(last) := if key(last) in cnt then cnt[key(last)] + 1 else 1];
      forall k | k in Counts(es, key) ensures Counts(es, key)[k] == |Select(es, key, k)| {
        KeysMembership(pre, key, k);
        assert Select(es, key, k) == Select(pre, key, k) + (if key(last) == k then [last] else []);
      }
    }
  }

  /** Sum of the counts of the keys `ks`. */
  function TotalCount<K>(ks: seq<K>, cnt: map<K, nat>): nat
    requires forall k | k in ks :: k in cnt
  {
    if ks == [] then 0 else TotalCount(ks[..|ks| - 1], cnt) + cnt[ks[|ks| - 1]]
  }

  lemma {:induction false} TotalCountIsFlattenLength<K, T>(ks: seq<K>, cnt: map<K, nat>, lists: map<K, seq<T>>)
    requires forall k | k in ks :: k in cnt && k in lists && cnt[k] == |lists[k]|
    ensures TotalCount(ks, cnt) == |Flatten(ks, lists)|
  {
    if ks != [] {
      TotalCountIsFlattenLength(ks[..|ks| - 1], cnt, lists);
    }
  }

  /** The label counts add up to the number of samples, and the groups
      hold every sample exactly once. */
  lemma GroupSamplesPartition<V>(samples: seq<seq<V>>, labelcol: int)
    requires GroupSamples(samples, labelcol).Success?
    ensures var (groups, labelcnts) := GroupSamples(samples, labelcol).value;
      TotalCount(groups.keys, labelcnts) == |samples| &&
      multiset(Flatten(groups.keys, groups.lists)) == multiset(samples)
  {
    var (groups, labelcnts) := GroupSamples(samples, labelcol).value;
    var key := LabelKey<V>(labelcol);
    assert KeyDefined(samples, key);
    GroupOfPartition(samples, key);
    TotalCountIsFlattenLength(groups.keys, labelcnts, groups.lists);
  }

  /** `max(labelcnts.values())`; None where Python raises ValueError on an
      empty counter. */
  function MaxCount<K>(ks: seq<K>, cnt: map<K, nat>): (r: Option<nat>)
    requires forall k | k in ks :: k in cnt
    ensures r.None? <==> ks == []
    ensures r.Some? ==> (exists k | k in ks :: cnt[k] == r.value) && forall k | k in ks :: cnt[k] <= r.value
  {
    if ks == [] then None
    else
      var last := cnt[ks[|ks| - 1]];
      match MaxCount(ks[..|ks| - 1], cnt)
      case None => Some(last)
      case Some(m) => Some(if last > m then last else m)
  }

  /** `min(labelcnts.values())`; None where Python raises ValueError on an
      empty counter. */
  function MinCount<K>(ks: seq<K>, cnt: map<K, nat>): (r: Option<nat>)
    requires forall k | k in ks :: k in cnt
    ensures r.None? <==> ks == []
    ensures r.Some? ==> (exists k | k in ks :: cnt[k] == r.value) && forall k | k in ks :: r.value <= cnt[k]
  {
    if ks == [] then None
    else
      var last := cnt[ks[|ks| - 1]];
      match MinCount(ks[..|ks| - 1], cnt)
      case None => Some(last)
      case Some(m) => Some(if last < m then last else m)
  }
}
