# Data utilities of nuts-ml: grouping and stratified resampling

This project models the sample-set utilities of `nutsml/datautil.py`:

- `group_by` groups elements under the value of a key function, keeping the
  keys in the order of their first occurrence.
- `group_samples` groups samples by the label found at a fixed column and
  counts the labels with a `Counter`.
- `upsample` cycles every label group up to the size of the largest group
  and shuffles the result.
- `random_downsample` draws, without replacement, as many samples from every
  label group as the smallest group has.
- `col_map` applies a function to selected columns of a sample and keeps the
  other columns.

Modules:

- `PyBase` (`pybase.dfy`) holds the error kinds Python raises (`IndexError`,
  `ValueError`), `Result` and `Option`, and Python's negative indexing
  (`HasIndex`, `At`).
- `Grouping` (`grouping.dfy`) holds the grouping as a value (`Groups`: the
  keys in insertion order and the list stored under each key). It has the
  specification functions `Keys`, `Select` and `GroupOf`, and the imperative
  `GroupBy` loop, proved equal to `GroupOf`.
- `LabelCounts` (`labelcounts.dfy`) holds the `Counter` (`Counts`),
  `GroupSamples`, and the `max`/`min` over the counts.
- `Upsampling` (`upsampling.dfy`) holds list repetition (`Repeat`), the
  cyclic extension (`Cycle`) and the pool of up-sampled groups. `Shuffle` is
  a swap loop over an array, and `Upsample` is the imperative method.
- `Downsampling` (`downsampling.dfy`) holds draws without replacement
  (`IsDraw`, `Pick`), their concatenation (`Blocks`) and `Downsample`.
- `ColumnMap` (`colmap.dfy`) holds `ColMap`.
- `DocExamples` (`docexamples.dfy`) states the documented examples as lemmas.

The random generator is a parameter.

- `Upsample` receives `rand: nat -> nat`. The shuffle works like Python's
  `random.shuffle`: it swaps position `i` with position `rand(i) mod (i + 1)`,
  from the last position down to position 1. `FisherYates` gives the result
  of these swaps, so the same draws always give the same order.
- `Downsample` receives `draws`: for each label group, in group order, the
  positions `rand.sample` picks. Its precondition `DrawsMatch` states what
  `rand.sample` guarantees: the right number of distinct positions, each
  inside its group.

A sample is a sequence. A key function that may fail (`s[labelcol]` on a
too-short sample) is a partial arrow `T --> K`. Python's exceptions are the
`Failure` cases of a `Result`.

## Model

| member | source | states |
|---|---|---|
| Grouping.GroupBy | nutsml/datautil.py:165-172 | the loop builds exactly the grouping `GroupOf(elements, keyfunc)`: keys in first-occurrence order, and under each key the elements with that key in input order |
| Grouping.KeysMembership | nutsml/datautil.py:166-171 | a key is in the grouping iff some element has it, iff its list is non-empty |
| Grouping.KeysEmpty | nutsml/datautil.py:165-172 | the grouping has no keys iff the input is empty |
| Grouping.KeysDistinct | nutsml/datautil.py:168-171 | every key is stored once |
| Grouping.KeysFirstOccurrenceOrder | nutsml/datautil.py:165-171 | keys are listed in order of first occurrence: any occurrence of a later key is preceded by an occurrence of every earlier key |
| Grouping.SelectKeys | nutsml/datautil.py:167-169 | every element in the list for `k` is an input element with key `k`, and the list is no longer than the input |
| Grouping.SelectMultiset | nutsml/datautil.py:166-171 | the list for `k` holds an element as often as the input does when its key is `k`, and never otherwise |
| Grouping.SelectPermutation | nutsml/datautil.py:166-171 | inputs that are permutations of each other have lists for `k` that are permutations of each other |
| Grouping.SelectUniform | nutsml/datautil.py:166-171 | when all elements share key `k0`, the list for `k0` is the whole input and every other list is empty |
| Grouping.SelectAppend | nutsml/datautil.py:166-171 | grouping a concatenation concatenates the lists for each key |
| Grouping.GroupOfPartition | nutsml/datautil.py:165-172 | the groups partition the input: their concatenation is a permutation of the input, of the same length |
| Grouping.GroupOfShape | nutsml/datautil.py:165-172 | keys are distinct, the stored keys are exactly the listed ones, every list is non-empty, and it holds only input elements with its key |
| PyBase.At | nutsml/datautil.py:144-145 | `s[i]` on a sample that has index `i` (`HasIndex`: `-len(s) <= i < len(s)`) is an element of the sample |
| PyBase.AtNegative | nutsml/datautil.py:144-145 | index `i` and index `i - len(s)` name the same element |
| LabelCounts.LabelKeyAt | nutsml/datautil.py:144-145 | the key function `LabelKey`, `lambda s: s[labelcol]`, is defined on every sample with a label column and gives the element there, negative indices included |
| LabelCounts.Counts | nutsml/datautil.py:144 | the `Counter` has an entry for the label of every sample, and every count is between 1 and the number of samples |
| LabelCounts.GroupSamples | nutsml/datautil.py:123-146 | IndexError iff some sample lacks the label column. Otherwise the counter and the groups have the same labels, each count is the length of its non-empty group, and there are no labels iff there are no samples |
| LabelCounts.CountsMatchGroups | nutsml/datautil.py:144-145 | the Counter counts exactly the grouping's keys, each as often as its list is long |
| LabelCounts.GroupSamplesPartition | nutsml/datautil.py:144-146 | the counts add up to the number of samples, and the groups hold every sample exactly once |
| LabelCounts.MaxCount | nutsml/datautil.py:77 | none iff there are no labels; otherwise a count that some label has and no label exceeds |
| LabelCounts.MinCount | nutsml/datautil.py:119 | none iff there are no labels; otherwise a count that some label has and that no label goes below |
| Upsampling.CycleElements | nutsml/datautil.py:80-81 | the extended group holds only elements of the group |
| Upsampling.Repeat | nutsml/datautil.py:80 | `s * k` holds only elements of `s` |
| Upsampling.RepeatLength | nutsml/datautil.py:80 | `s * k` has `k * len(s)` elements |
| Upsampling.RepeatAt | nutsml/datautil.py:80 | element `i` of `s * k` is `s[i mod len(s)]` |
| Upsampling.ReplicationFactor | nutsml/datautil.py:80 | the factor `max_cnts / n + 1` repeats a group of `n` past `max_cnts` elements |
| Upsampling.RepeatTruncated | nutsml/datautil.py:80-81 | any repetition with at least `m` elements, cut at `m`, is the cyclic extension of the group to `m` elements |
| Upsampling.UpsampledGroup | nutsml/datautil.py:80-81 | `(g * int(m / len(g) + 1))[:m]` is the cyclic extension of `g` to `m` elements |
| Upsampling.StratifiedPool | nutsml/datautil.py:76-81 | fails iff the input is empty or a sample lacks the label column; IndexError exactly in the second case, ValueError from `max` on no labels |
| Upsampling.FisherYates | nutsml/datautil.py:82 | the swaps leave the length of the list unchanged |
| Upsampling.FisherYatesPermutation | nutsml/datautil.py:82 | whatever the draws, the swaps give a permutation of the list |
| Upsampling.Shuffle | nutsml/datautil.py:82 | the in-place swap loop over the array gives exactly `FisherYates(x, rand, 1)`, the order the draws determine, and a permutation of the list |
| Upsampling.Stratify | nutsml/datautil.py:76-81 | grouping, `max` and the extension loop compute exactly `StratifiedPool`, errors included |
| Upsampling.PoolGroups | nutsml/datautil.py:78-81 | the loop builds exactly the pool of up-sampled groups in label order |
| Upsampling.Upsample | nutsml/datautil.py:76-83 | raises what the pool computation raises; otherwise returns the shuffle of the pool that the draws determine, which is a permutation of the pool; the same generator gives the same result |
| Upsampling.PoolStep | nutsml/datautil.py:79-81 | each iteration extends the pool by the up-sampled group of the next label |
| Upsampling.PoolLength | nutsml/datautil.py:79-81 | the pool has `max_cnts` samples per label |
| Upsampling.PoolElements | nutsml/datautil.py:79-81 | every pooled sample comes from one of the groups |
| Upsampling.PoolSelect | nutsml/datautil.py:79-81 | the pooled samples with label `l` are the cyclic extension of `l`'s group, and there are none for other labels |
| Upsampling.UpsampleBalanced | nutsml/datautil.py:58-65 | any shuffle of the pool has `max_cnts * number_of_labels` samples, exactly `max_cnts` of each input label, none of any other label, and only input samples |
| Downsampling.Downsample | nutsml/datautil.py:118-120 | fails iff the input is empty or a sample lacks the label column (IndexError exactly then, ValueError from `min` otherwise); the result never holds a sample more often than the input |
| Downsampling.Pick | nutsml/datautil.py:120 | `rand.sample(e, m)` at the drawn positions gives one element of the group per position |
| Downsampling.PickAppend | nutsml/datautil.py:120 | drawing positions `a + b` picks the draws for `a` followed by those for `b` |
| Downsampling.PickRemove | nutsml/datautil.py:120 | leaving one position out of a draw leaves its element out of the picks |
| Downsampling.DrawRemove | nutsml/datautil.py:120 | without the top position, a draw from `n + 1` positions is a draw from `n` |
| Downsampling.PickSubMultiset | nutsml/datautil.py:120 | a draw without replacement holds no element more often than the group |
| Downsampling.PickAll | nutsml/datautil.py:120 | a draw of all positions is a permutation of the group |
| Downsampling.BlocksSubMultiset | nutsml/datautil.py:120 | the concatenated draws are a sub-multiset of the groups, and a permutation of them when every group has `min_cnts` samples |
| Downsampling.BlocksLength | nutsml/datautil.py:120 | the comprehension's result (`Blocks`, the concatenated draws) has `min_cnts` samples per group |
| Downsampling.BlocksPrefix | nutsml/datautil.py:120 | the draws for the first groups are a prefix of the result |
| Downsampling.BlockAt | nutsml/datautil.py:120 | in the comprehension's result (`Blocks`), the `i`-th run of `min_cnts` samples is the draw from the `i`-th group |
| Downsampling.BlocksSelect | nutsml/datautil.py:120 | the drawn samples with label `l` are the draw from `l`'s group, and there are none for other labels |
| Downsampling.DownsampleBalanced | nutsml/datautil.py:118-120 | `min_cnts * number_of_labels` samples, exactly `min_cnts` of each input label and none of any other, drawn without replacement from that label's samples |
| Downsampling.DownsampleRuns | nutsml/datautil.py:118-120 | the result is one run of `min_cnts` samples per label in group order, and run `i` holds only samples with label `i` |
| Downsampling.DownsampleBalancedInput | nutsml/datautil.py:118-120 | when all labels are equally frequent, the result is a permutation of the input |
| ColumnMap.EnumMap | nutsml/datautil.py:196-197 | the enumerated positions starting at `start` are mapped exactly where they are in the column set |
| ColumnMap.ColMap | nutsml/datautil.py:174-197 | same arity as the sample; a selected position holds `func` of the original element, every other position the original |
| ColumnMap.ColMapIgnoresOutOfRange | nutsml/datautil.py:194-197 | column indices outside the sample, negative ones included, have no effect |
| ColumnMap.ColMapUnselected | nutsml/datautil.py:194-197 | with no column inside the sample, the sample comes back unchanged |
| ColumnMap.ColMapUnion | nutsml/datautil.py:194-197 | mapping disjoint column sets one after the other is mapping their union |
| DocExamples.GroupByOddEven | nutsml/datautil.py:153-156 | grouping `[0, 1, 2, 3, 4]` by oddness gives `False: [0, 2, 4]` then `True: [1, 3]` |
| DocExamples.GroupByEmpty | nutsml/datautil.py:165-172 | grouping no elements gives the empty grouping |
| DocExamples.PairedSamplesGrouped | nutsml/datautil.py:127-133 | `group_samples([('pos', 1), ('pos', 1), ('neg', 0)], 1)` gives label 1 first with the repeated sample twice, then label 0 with one sample, and counts 2 and 1 |
| DocExamples.ThreeSamplesGrouped | nutsml/datautil.py:60 | grouping the up-sampling example's samples `[pos1, pos2, neg1]` by column 1 gives label 1 first with its two samples, then label 0 with one, and counts 2 and 1 |
| DocExamples.ThreeSamplesPool | nutsml/datautil.py:58-65 | the pool shuffled for `[pos1, pos2, neg1]` is `[pos1, pos2, neg1, neg1]` |
| DocExamples.UpsamplePrinted | nutsml/datautil.py:60-64 | the first two printed results, `[neg1, neg1, pos1, pos2]` and `[pos2, neg1, pos1, neg1]`, are shuffles of that pool, each for its own draws |
| DocExamples.DownsampleFirstOutput | nutsml/datautil.py:101-107 | with draws `[1, 2]` and `[1, 0]`, down-sampling the five samples gives `[pos2, pos3, neg2, neg1]` |
| DocExamples.SamplersRejectEmpty | nutsml/datautil.py:77 | with no samples, both samplers raise ValueError |
| DocExamples.ColMapAddTen | nutsml/datautil.py:178-184 | `col_map((1, 2, 3), 1, add_n, 10)` is `(1, 12, 3)` and with columns `(0, 2)` it is `(11, 2, 13)` |

## Left out

- `isnan` and `shapestr` (`nutsml/datautil.py:13-44`) are not modelled. They work on floating point and numpy arrays and are outside the grouping and resampling core.
- `nutsml/config.py` and the autoencoder example are not part of this model.
- The `ordered` flag of `group_by`, `group_samples` and `random_downsample` is not modelled. The model always keeps keys in first-occurrence order, which is what `OrderedDict` gives and what a Python 3.7+ `dict` gives as well.
- The generator's internals (Mersenne twister, `randbelow`, `rand.sample`'s algorithm) are not modelled; their draws are parameters. The default shared generator `rnd.Random(None)` is therefore not modelled either.
- Upsampling.Shuffle: the list is shuffled in place in Python. The model copies it into an array, shuffles the array in place and returns its contents.
- Upsampling.PoolGroups: `int(max_cnts / len(samples) + 1)` uses floating-point division. The model uses exact integer division, which agrees for counts below 2^53.
- Labels that cannot be hashed (Python's TypeError) are not modelled; labels are values with equality.
- ColumnMap.ColMap: the extra `*args` and `**kwargs` are taken as already bound into `func`. `as_set(columns)` is not modelled; the columns are given as a set of integers. The result is a sequence rather than a tuple.
- Only the positions of `col_map`'s enumeration are mapped, so negative column indices have no effect. The model states this (ColMapIgnoresOutOfRange); it is not negative indexing.
- Samples are sequences of one element type. Tuples that mix types are modelled by a sum type (`Field` in the examples).
- Python's equality across numeric types is not modelled: `1`, `1.0` and `True` are one dict key and one label in Python, but distinct values of a sum type such as `Field` are distinct keys.
- Samples are given as a finite sequence. The source accepts any iterable, and `group_samples` walks `samples` twice (`nutsml/datautil.py:144` and `:145`). A one-shot iterator such as a generator is used up by the `Counter`, so `group_by` then sees no samples: the groups are empty while the counts are not, and both samplers return `[]`. The model does not capture this case.
- Grouping.GroupBy: a key function that raises is not modelled; the precondition `KeyDefined` asks the key to be defined on every element. In `group_samples` the one failure of the key, an IndexError, is modelled.
- ColumnMap.ColMap: a `func` that raises is not modelled; `func` is a total function.
