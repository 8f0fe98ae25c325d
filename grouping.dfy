/** `group_by`: splitting a finite sequence into per-key lists. */
module Grouping {

  /** A Python dict from keys to lists, as `group_by` builds it: the keys in
      insertion order, and the list stored under each key. */
  datatype Groups<K, T> = Groups(keys: seq<K>, lists: map<K, seq<T>>)

  /** The key function may be applied to every element. */
  ghost predicate KeyDefined<T, K>(es: seq<T>, key: T --> K)
  {
    forall e | e in es :: key.requires(e)
  }

  /** The elements of `es` whose key is `k`, in encounter order. */
  function Select<T, K(==)>(es: seq<T>, key: T --> K, k: K): seq<T>
    requires KeyDefined(es, key)
  {
    if es == [] then []
    else
      var last := es[|es| - 1];
      Select(es[..|es| - 1], key, k) + (if key(last) == k then [last] else [])
  }

  /** The keys of `es`, each once, in the order of their first occurrence. */
  function Keys<T, K(==)>(es: seq<T>, key: T --> K): seq<K>
    requires KeyDefined(es, key)
  {
    if es == [] then []
    else
      var ks := Keys(es[..|es| - 1], key);
      var k := key(es[|es| - 1]);
      if k in ks then ks else ks + [k]
  }

  predicate Distinct<K(==)>(ks: seq<K>)
  {
    forall a, b | 0 <= a < b < |ks| :: ks[a] != ks[b]
  }

  /** The grouping `group_by` is meant to produce: one list per key, in
      first-occurrence order of the keys. */
  function GroupOf<T, K(==)>(es: seq<T>, key: T --> K): Groups<K, T>
    requires KeyDefined(es, key)
  {
    var ks := Keys(es, key);
    Groups(ks, map k | k in ks :: Select(es, key, k))
  }

  /** Every element of the list stored under `k` has key `k`. */
  ghost predicate ListedUnderKey<K, T>(ks: seq<K>, lists: map<K, seq<T>>, key: T --> K)
  {
    forall k | k in ks :: k in lists && lists[k] != [] &&
      forall e | e in lists[k] :: key.requires(e) && key(e) == k
  }

  /** The lists of a grouping concatenated in key order, as iterating
      over `groups.values()` visits them. */
  function Flatten<K, T>(ks: seq<K>, lists: map<K, seq<T>>): seq<T>
    requires forall k | k in ks :: k in lists
  {
    if ks == [] then [] else Flatten(ks[..|ks| - 1], lists) + lists[ks[|ks| - 1]]
  }

  /** `group_by(elements, keyfunc)`: one pass over the elements, appending
      each to the list of its key and creating the list on first sight. */
  method GroupBy<T, K(==)>(elements: seq<T>, keyfunc: T --> K) returns (groups: Groups<K, T>)
    requires KeyDefined(elements, keyfunc)
    ensures groups == GroupOf(elements, keyfunc)
  {
    var keys: seq<K> := [];
    var lists: map<K, seq<T>> := map[];
    var i := 0;
    while i < |elements|
      invariant 0 <= i <= |elements|
      invariant keys == Keys(elements[..i], keyfunc)
      invariant forall k :: k in lists <==> k in keys
      invariant forall k | k in lists :: lists[k] == Select(elements[..i], keyfunc, k)
    {
      var e := elements[i];
      var k := keyfunc(e);
      assert elements[..i + 1][..i] == elements[..i];
      KeysMembership(elements[..i], keyfunc, k);
      if k in lists {
        lists := lists[k := lists[k] + [e]];
      } else {
        keys := keys + [k];
        lists := lists[k := [e]];
      }
      i := i + 1;
    }
    assert elements[..i] == elements;
    groups := Groups(keys, lists);
  }

  /** A key is listed exactly when some element carries it, and then its
      list is non-empty. */
  lemma {:induction false} KeysMembership<T, K>(es: seq<T>, key: T --> K, k: K)
    requires KeyDefined(es, key)
    ensures k in Keys(es, key) <==> exists i :: 0 <= i < |es| && key(es[i]) == k
    ensures k in Keys(es, key) <==> Select(es, key, k) != []
  {
    if es != [] {
      var pre := es[..|es| - 1];
      KeysMembership(pre, key, k);
      if k in Keys(pre, key) {
        var i :| 0 <= i < |pre| && key(pre[i]) == k;
        assert key(es[i]) == k;
      }
      if exists i :: 0 <= i < |es| && key(es[i]) == k {
        var i :| 0 <= i < |es| && key(es[i]) == k;
        if i < |pre| {
          assert key(pre[i]) == k;
        }
      }
    }
  }

  /** Only the empty input has no keys. */
  lemma KeysEmpty<T, K>(es: seq<T>, key: T --> K)
    requires KeyDefined(es, key)
    ensures Keys(es, key) == [] <==> es == []
  {
    if es != [] {
      KeysMembership(es, key, key(es[0]));
    }
  }

  /** No key is listed twice. */
  lemma {:induction false} KeysDistinct<T, K>(es: seq<T>, key: T --> K)
    requires KeyDefined(es, key)
    ensures Distinct(Keys(es, key))
  {
    if es != [] {
      KeysDistinct(es[..|es| - 1], key);
    }
  }

  /** Every occurrence of key `ks[b]` in `es` is preceded by an occurrence
      of each earlier key `ks[a]`. */
  ghost predicate FirstOccurrenceOrdered<T, K>(es: seq<T>, ks: seq<K>, key: T --> K)
    requires KeyDefined(es, key)
  {
    forall a, b, j | 0 <= a < b < |ks| && 0 <= j < |es| && key(es[j]) == ks[b] ::
      exists i :: 0 <= i < j && key(es[i]) == ks[a]
  }

  /** Keys appear in first-occurrence order: every occurrence of a later
      key is preceded by an occurrence of each earlier key. */
  lemma {:induction false} KeysFirstOccurrenceOrder<T, K>(es: seq<T>, key: T --> K)
    requires KeyDefined(es, key)
    ensures FirstOccurrenceOrdered(es, Keys(es, key), key)
  {
    if es != [] {
      var pre, e := es[..|es| - 1], es[|es| - 1];
      KeysFirstOccurrenceOrder(pre, key);
      SplitLast(es);
      KeysOrderStep(pre, e, key);
    }
  }

  /** The first-occurrence order survives appending an element. */
  lemma KeysOrderStep<T, K>(pre: seq<T>, e: T, key: T --> K)
    requires KeyDefined(pre + [e], key)
    requires FirstOccurrenceOrdered(pre, Keys(pre, key), key)
    ensures FirstOccurrenceOrdered(pre + [e], Keys(pre + [e], key), key)
  {
    var es := pre + [e];
    var ks, ks' := Keys(pre, key), Keys(es, key);
    assert es[..|es| - 1] == pre;
    assert ks' == if key(e) in ks then ks else ks + [key(e)];
    forall a, b, j | 0 <= a < b < |ks'| && 0 <= j < |es| && key(es[j]) == ks'[b]
      ensures exists i :: 0 <= i < j && key(es[i]) == ks'[a]
    {
      assert a < |ks| && ks'[a] == ks[a];
      if b < |ks| {
        assert ks'[b] == ks[b];
        KeysOrderOldKey(pre, e, key, a, b, j);
      } else {
        KeysMembership(pre, key, ks'[b]);
        assert j == |pre|;
        KeysMembership(pre, key, ks[a]);
        var i :| 0 <= i < |pre| && key(pre[i]) == ks[a];
        assert key(es[i]) == ks'[a];
      }
    }
  }

  lemma SplitLast<T>(s: seq<T>)
    requires s != []
    ensures s == s[..|s| - 1] + [s[|s| - 1]]
  {
  }

  /** An occurrence of a key the prefix already has: the earlier key occurs
      before the first occurrence in the prefix. */
  lemma KeysOrderOldKey<T, K>(pre: seq<T>, e: T, key: T --> K, a: nat, b: nat, j: nat)
    requires KeyDefined(pre + [e], key)
    requires FirstOccurrenceOrdered(pre, Keys(pre, key), key)
    requires a < b < |Keys(pre, key)| && j <= |pre| && key((pre + [e])[j]) == Keys(pre, key)[b]
    ensures exists i :: 0 <= i < j && key((pre + [e])[i]) == Keys(pre, key)[a]
  {
    var ks := Keys(pre, key);
    var j' := j;
    if j == |pre| {
      KeysMembership(pre, key, ks[b]);
      j' :| 0 <= j' < |pre| && key(pre[j']) == ks[b];
    } else {
      assert key(pre[j]) == ks[b];
    }
    assert key(pre[j']) == ks[b];
    assert exists i :: 0 <= i < j' && key(pre[i]) == ks[a];
    var i :| 0 <= i < j' && key(pre[i]) == ks[a];
    assert key((pre + [e])[i]) == ks[a];
  }

  /** Every element of the list for `k` is an input element with key `k`,
      and the list is no longer than the input. */
  lemma {:induction false} SelectKeys<T, K>(es: seq<T>, key: T --> K, k: K)
    requires KeyDefined(es, key)
    ensures forall e | e in Select(es, key, k) :: e in es && key(e) == k
    ensures |Select(es, key, k)| <= |es|
  {
    if es != [] {
      SelectKeys(es[..|es| - 1], key, k);
    }
  }

  /** How often `x` occurs in the list for `k`: as often as in the input
      when its key is `k`, never otherwise. */
  lemma {:induction false} SelectMultiset<T, K>(es: seq<T>, key: T --> K, k: K, x: T)
    requires KeyDefined(es, key)
    requires key.requires(x)
    ensures multiset(Select(es, key, k))[x] == if key(x) == k then multiset(es)[x] else 0
  {
    if es != [] {
      var pre := es[..|es| - 1];
      SelectMultiset(pre, key, k, x);
      assert es == pre + [es[|es| - 1]];
    }
  }

  /** Sequences with the same elements have lists of the same length for
      every key. */
  lemma SelectPermutation<T, K>(a: seq<T>, b: seq<T>, key: T --> K, k: K)
    requires KeyDefined(a, key) && multiset(a) == multiset(b)
    ensures KeyDefined(b, key)
    ensures multiset(Select(a, key, k)) == multiset(Select(b, key, k))
    ensures |Select(a, key, k)| == |Select(b, key, k)|
  {
    forall x | x in b ensures key.requires(x) {
      assert multiset(b)[x] > 0;
      assert x in multiset(a);
    }
    SelectKeys(a, key, k);
    SelectKeys(b, key, k);
    var sa, sb := Select(a, key, k), Select(b, key, k);
    forall x ensures multiset(sa)[x] == multiset(sb)[x] {
      if x in a {
        SelectMultiset(a, key, k, x);
        SelectMultiset(b, key, k, x);
      } else {
        assert x !in Select(a, key, k);
        assert x !in multiset(b);
        assert x !in Select(b, key, k);
      }
    }
    assert forall x :: multiset(sa)[x] == multiset(sb)[x];
    MultisetExt(multiset(sa), multiset(sb));
    assert |multiset(sa)| == |sa|;
    assert |multiset(sb)| == |sb|;
  }

  lemma MultisetExt<T>(a: multiset<T>, b: multiset<T>)
    requires forall x :: a[x] == b[x]
    ensures a == b
  {
  }

  /** When every element has key `k0`, the list for `k0` is everything and
      every other list is empty. */
  lemma {:induction false} SelectUniform<T, K>(s: seq<T>, key: T --> K, k0: K, k: K)
    requires forall e | e in s :: key.requires(e) && key(e) == k0
    ensures KeyDefined(s, key)
    ensures Select(s, key, k) == if k == k0 then s else []
  {
    if s != [] {
      var pre := s[..|s| - 1];
      forall e | e in pre ensures key.requires(e) && key(e) == k0 {
        var i :| 0 <= i < |pre| && pre[i] == e;
        assert s[i] == e;
      }
      SelectUniform(pre, key, k0, k);
      assert s[|s| - 1] in s;
    }
  }

  /** Selecting from a concatenation selects from each part. */
  lemma {:induction false} SelectAppend<T, K>(a: seq<T>, b: seq<T>, key: T --> K, k: K)
    requires KeyDefined(a, key) && KeyDefined(b, key)
    ensures KeyDefined(a + b, key)
    ensures Select(a + b, key, k) == Select(a, key, k) + Select(b, key, k)
  {
    if b == [] {
      assert a + b == a;
    } else {
      var b' := b[..|b| - 1];
      assert (a + b)[..|a + b| - 1] == a + b';
      SelectAppend(a, b', key, k);
    }
  }

  /** The lists for the keys `ks`, taken straight from the input and
      concatenated in key order. */
  ghost function FlattenSelect<T, K>(ks: seq<K>, es: seq<T>, key: T --> K): seq<T>
    requires KeyDefined(es, key)
  {
    if ks == [] then [] else FlattenSelect(ks[..|ks| - 1], es, key) + Select(es, key, ks[|ks| - 1])
  }

  /** Adding one element to the input adds it to the lists of a distinct
      key sequence exactly when its key is among them. */
  lemma {:induction false} FlattenSelectAppend<T, K>(ks: seq<K>, es: seq<T>, e: T, key: T --> K)
    requires KeyDefined(es, key) && key.requires(e)
    requires Distinct(ks)
    ensures KeyDefined(es + [e], key)
    ensures multiset(FlattenSelect(ks, es + [e], key)) ==
      multiset(FlattenSelect(ks, es, key)) + (if key(e) in ks then multiset{e} else multiset{})
  {
    var es' := es + [e];
    assert KeyDefined(es', key);
    assert es'[..|es'| - 1] == es;
    if ks != [] {
      var pre := ks[..|ks| - 1];
      var last := ks[|ks| - 1];
      FlattenSelectAppend(pre, es, e, key);
      assert last !in pre;
      assert key(e) in ks <==> key(e) in pre || key(e) == last;
    }
  }

  /** Flatten over lists that are the selections from `es` is FlattenSelect. */
  lemma {:induction false} FlattenIsSelect<T, K>(ks: seq<K>, lists: map<K, seq<T>>, es: seq<T>, key: T --> K)
    requires KeyDefined(es, key)
    requires forall k | k in ks :: k in lists && lists[k] == Select(es, key, k)
    ensures Flatten(ks, lists) == FlattenSelect(ks, es, key)
  {
    if ks != [] {
      FlattenIsSelect(ks[..|ks| - 1], lists, es, key);
    }
  }

  lemma FlattenSelectSnoc<T, K>(ks: seq<K>, k: K, es: seq<T>, key: T --> K)
    requires KeyDefined(es, key)
    ensures FlattenSelect(ks + [k], es, key) == FlattenSelect(ks, es, key) + Select(es, key, k)
  {
    assert (ks + [k])[..|ks|] == ks;
  }

  /** The selections for the keys of `es` hold every element exactly as
      often as `es` does. */
  lemma {:induction false} FlattenSelectKeys<T, K>(es: seq<T>, key: T --> K)
    requires KeyDefined(es, key)
    ensures multiset(FlattenSelect(Keys(es, key), es, key)) == multiset(es)
  {
    if es != [] {
      var pre := es[..|es| - 1];
      var e := es[|es| - 1];
      assert es == pre + [e];
      FlattenSelectKeys(pre, key);
      if key(e) in Keys(pre, key) {
        FlattenSelectKeysOld(pre, e, key);
      } else {
        FlattenSelectKeysNew(pre, e, key);
      }
    }
  }

  /** An element with an already listed key joins that key's selection. */
  lemma FlattenSelectKeysOld<T, K>(pre: seq<T>, e: T, key: T --> K)
    requires KeyDefined(pre + [e], key) && key(e) in Keys(pre, key)
    requires multiset(FlattenSelect(Keys(pre, key), pre, key)) == multiset(pre)
    ensures multiset(FlattenSelect(Keys(pre + [e], key), pre + [e], key)) == multiset(pre + [e])
  {
    var es := pre + [e];
    assert es[..|es| - 1] == pre;
    var ks := Keys(pre, key);
    assert Keys(es, key) == ks;
    KeysDistinct(pre, key);
    FlattenSelectAppend(ks, pre, e, key);
  }

  /** An element with a new key opens a selection of its own. */
  lemma FlattenSelectKeysNew<T, K>(pre: seq<T>, e: T, key: T --> K)
    requires KeyDefined(pre + [e], key) && key(e) !in Keys(pre, key)
    requires multiset(FlattenSelect(Keys(pre, key), pre, key)) == multiset(pre)
    ensures multiset(FlattenSelect(Keys(pre + [e], key), pre + [e], key)) == multiset(pre + [e])
  {
    var es := pre + [e];
    assert es[..|es| - 1] == pre;
    var ks, k := Keys(pre, key), key(e);
    assert Keys(es, key) == ks + [k];
    KeysDistinct(pre, key);
    FlattenSelectAppend(ks, pre, e, key);
    FlattenSelectSnoc(ks, k, es, key);
    KeysMembership(pre, key, k);
    assert Select(es, key, k) == Select(pre, key, k) + [e];
  }

  /** The groups partition the input: their concatenation holds every
      element exactly as often as the input does, so the group lengths add
      up to the input length. */
  lemma GroupOfPartition<T, K>(es: seq<T>, key: T --> K)
    requires KeyDefined(es, key)
    ensures var g := GroupOf(es, key);
      (forall k | k in g.keys :: k in g.lists) &&
      multiset(Flatten(g.keys, g.lists)) == multiset(es) &&
      |Flatten(g.keys, g.lists)| == |es|
  {
    var g := GroupOf(es, key);
    FlattenIsSelect(g.keys, g.lists, es, key);
    FlattenSelectKeys(es, key);
    assert |multiset(es)| == |es|;
  }

  /** Shape of a grouping: the keys are distinct and are exactly the
      dictionary's keys; every list is non-empty and holds the elements of
      the input with that key, in input order. */
  lemma GroupOfShape<T, K>(es: seq<T>, key: T --> K)
    requires KeyDefined(es, key)
    ensures var g := GroupOf(es, key);
      Distinct(g.keys) &&
      (forall k :: k in g.lists <==> k in g.keys) &&
      (forall k | k in g.lists :: g.lists[k] != [] && g.lists[k] == Select(es, key, k)) &&
      (forall k | k in g.lists :: forall e | e in g.lists[k] :: e in es && key(e) == k)
  {
    KeysDistinct(es, key);
    var g := GroupOf(es, key);
    forall k | k in g.lists
      ensures g.lists[k] != []
      ensures forall e | e in g.lists[k] :: e in es && key(e) == k
    {
      KeysMembership(es, key, k);
      SelectKeys(es, key, k);
    }
  }
}
