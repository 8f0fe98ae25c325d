/** `col_map`: rebuilds a sample, applying a function at selected positions. */
module ColumnMap {

  /** The generator `f(e) if i in colset else e for i, e in enumerate(...)`
      over the elements `rest`, whose first position is `start`. */
  function EnumMap<T>(rest: seq<T>, colset: set<int>, f: T -> T, start: int): (r: seq<T>)
    ensures |r| == |rest|
    ensures forall i | 0 <= i < |r| :: r[i] == if start + i in colset then f(rest[i]) else rest[i]
  {
    if rest == [] then []
    else [if start in colset then f(rest[0]) else rest[0]] + EnumMap(rest[1..], colset, f, start + 1)
  }

  /** `col_map(sample, columns, func, *args, **kwargs)`, with the extra
      arguments bound into `func`. The result has the arity of the sample;
      a selected position holds the function of the original element, every
      other position the original element. */
  function ColMap<T>(sample: seq<T>, columns: set<int>, func: T -> T): (r: seq<T>)
    ensures |r| == |sample|
    ensures forall i | 0 <= i < |r| :: r[i] == if i in columns then func(sample[i]) else sample[i]
  {
    EnumMap(sample, columns, func, 0)
  }

  /** Column indices outside `0..len(sample)-1`, negative ones included,
      have no effect. */
  lemma ColMapIgnoresOutOfRange<T>(sample: seq<T>, columns: set<int>, func: T -> T)
    ensures ColMap(sample, columns, func) ==
      ColMap(sample, (set i | i in columns && 0 <= i < |sample|), func)
  {
  }

  /** With no selected position inside the sample, the sample comes back
      unchanged. */
  lemma ColMapUnselected<T>(sample: seq<T>, columns: set<int>, func: T -> T)
    requires forall i | i in columns :: i < 0 || i >= |sample|
    ensures ColMap(sample, columns, func) == sample
  {
  }

  /** Mapping two disjoint column sets one after the other is mapping their
      union at once. */
  lemma ColMapUnion<T>(sample: seq<T>, a: set<int>, b: set<int>, func: T -> T)
    requires a !! b
    ensures ColMap(ColMap(sample, a, func), b, func) == ColMap(sample, a + b, func)
  {
  }
}
