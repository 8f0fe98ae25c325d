/** The documented examples of the data utilities, as lemmas about the model. */
module DocExamples {
  import opened PyBase
  import opened Grouping
  import opened LabelCounts
  import opened Upsampling
  import opened Downsampling
  import opened ColumnMap

  /** A field of a sample tuple such as `('pos1', 1)`. */
  datatype Field = Str(s: string) | Num(n: int)

  function IsOdd(x: int): bool { x % 2 == 1 }

  lemma OddEvenPrefixes()
    ensures [0, 1, 2, 3, 4][..4] == [0, 1, 2, 3] && [0, 1, 2, 3][..3] == [0, 1, 2]
    ensures [0, 1, 2][..2] == [0, 1] && [0, 1][..1] == [0] && [0][..0] == []
  {
  }

  lemma OddEvenKeys()
    ensures Keys([0, 1, 2, 3, 4], IsOdd) == [false, true]
  {
    OddEvenPrefixes();
    OddEvenParities();
    assert Keys([0], IsOdd) == [false];
    assert Keys([0, 1], IsOdd) == [false, true];
    assert Keys([0, 1, 2], IsOdd) == [false, true];
    assert Keys([0, 1, 2, 3], IsOdd) == [false, true];
  }

  lemma OddEvenParities()
    ensures !IsOdd(0) && IsOdd(1) && !IsOdd(2) && IsOdd(3) && !IsOdd(4)
  {
  }

  lemma OddEvenLists()
    ensures Select([0, 1, 2, 3, 4], IsOdd, false) == [0, 2, 4]
    ensures Select([0, 1, 2, 3, 4], IsOdd, true) == [1, 3]
  {
    OddEvenEvens();
    OddEvenOdds();
  }

  lemma OddEvenEvens()
    ensures Select([0, 1, 2, 3, 4], IsOdd, false) == [0, 2, 4]
  {
    OddEvenPrefixes();
    OddEvenParities();
    assert Select([0], IsOdd, false) == [0];
    assert Select([0, 1], IsOdd, false) == [0];
    assert Select([0, 1, 2], IsOdd, false) == [0, 2];
    assert Select([0, 1, 2, 3], IsOdd, false) == [0, 2];
  }

  lemma OddEvenOdds()
    ensures Select([0, 1, 2, 3, 4], IsOdd, true) == [1, 3]
  {
    OddEvenPrefixes();
    OddEvenParities();
    assert Select([0], IsOdd, true) == [];
    assert Select([0, 1], IsOdd, true) == [1];
    assert Select([0, 1, 2], IsOdd, true) == [1];
    assert Select([0, 1, 2, 3], IsOdd, true) == [1, 3];
  }

  /** `group_by([0, 1, 2, 3, 4], is_odd, True)` gives
      `OrderedDict([(False, [0, 2, 4]), (True, [1, 3])])`. */
  lemma GroupByOddEven()
    ensures GroupOf([0, 1, 2, 3, 4], IsOdd) == Groups([false, true], map[false := [0, 2, 4], true := [1, 3]])
  {
    OddEvenKeys();
    OddEvenLists();
  }

  /** Grouping the empty input gives the empty grouping. */
  lemma GroupByEmpty<T, K>(key: T -> K)
    ensures GroupOf([], key) == Groups([], map[])
  {
  }

  function Pos1(): seq<Field> { [Str("pos1"), Num(1)] }
  function Pos2(): seq<Field> { [Str("pos2"), Num(1)] }
  function Pos3(): seq<Field> { [Str("pos3"), Num(1)] }
  function Neg1(): seq<Field> { [Str("neg1"), Num(0)] }
  function Neg2(): seq<Field> { [Str("neg2"), Num(0)] }

  /** Column 1 of each sample tuple is its label. */
  lemma LabelsOfSamples()
    ensures LabelKey<Field>(1).requires(Pos1()) && LabelKey<Field>(1)(Pos1()) == Num(1)
    ensures LabelKey<Field>(1).requires(Pos2()) && LabelKey<Field>(1)(Pos2()) == Num(1)
    ensures LabelKey<Field>(1).requires(Pos3()) && LabelKey<Field>(1)(Pos3()) == Num(1)
    ensures LabelKey<Field>(1).requires(Neg1()) && LabelKey<Field>(1)(Neg1()) == Num(0)
    ensures LabelKey<Field>(1).requires(Neg2()) && LabelKey<Field>(1)(Neg2()) == Num(0)
  {
  }

  function ThreeSamples(): seq<seq<Field>> { [Pos1(), Pos2(), Neg1()] }

  lemma ThreeSamplesPrefixes()
    ensures ThreeSamples()[..2] == [Pos1(), Pos2()]
    ensures [Pos1(), Pos2()][..1] == [Pos1()] && [Pos1()][..0] == []
  {
  }

  lemma ThreeSamplesKeys()
    ensures KeyDefined(ThreeSamples(), LabelKey<Field>(1))
    ensures Keys(ThreeSamples(), LabelKey<Field>(1)) == [Num(1), Num(0)]
  {
    var key := LabelKey<Field>(1);
    ThreeSamplesPrefixes();
    LabelsOfSamples();
    assert Keys([Pos1()], key) == [Num(1)];
    assert Keys([Pos1(), Pos2()], key) == [Num(1)];
  }

  lemma ThreeSamplesSelect()
    ensures KeyDefined(ThreeSamples(), LabelKey<Field>(1))
    ensures Select(ThreeSamples(), LabelKey<Field>(1), Num(1)) == [Pos1(), Pos2()]
    ensures Select(ThreeSamples(), LabelKey<Field>(1), Num(0)) == [Neg1()]
  {
    var key := LabelKey<Field>(1);
    ThreeSamplesPrefixes();
    LabelsOfSamples();
    assert Select([Pos1()], key, Num(1)) == [Pos1()] && Select([Pos1()], key, Num(0)) == [];
    assert Select([Pos1(), Pos2()], key, Num(1)) == [Pos1(), Pos2()];
    assert Select([Pos1(), Pos2()], key, Num(0)) == [];
  }

  lemma ThreeSamplesCounts()
    ensures KeyDefined(ThreeSamples(), LabelKey<Field>(1))
    ensures Counts(ThreeSamples(), LabelKey<Field>(1)) == map[Num(1) := 2, Num(0) := 1]
  {
    var key := LabelKey<Field>(1);
    ThreeSamplesPrefixes();
    LabelsOfSamples();
    assert Counts([Pos1()], key) == map[Num(1) := 1];
    assert Counts([Pos1(), Pos2()], key) == map[Num(1) := 2];
  }

  /** Grouping the samples of the up-sampling example,
      `[('pos1', 1), ('pos2', 1), ('neg1', 0)]`, by column 1 lists the two
      positive samples before the negative one and counts 2 and 1. */
  lemma ThreeSamplesGrouped()
    ensures GroupSamples(ThreeSamples(), 1) ==
      Success((Groups([Num(1), Num(0)], map[Num(1) := [Pos1(), Pos2()], Num(0) := [Neg1()]]),
               map[Num(1) := 2, Num(0) := 1]))
  {
    LabelsOfSamples();
    assert AllLabelled(ThreeSamples(), 1);
    ThreeSamplesGroupOf();
    ThreeSamplesCounts();
  }

  lemma ThreeSamplesGroupOf()
    ensures KeyDefined(ThreeSamples(), LabelKey<Field>(1))
    ensures GroupOf(ThreeSamples(), LabelKey<Field>(1))
      == Groups([Num(1), Num(0)], map[Num(1) := [Pos1(), Pos2()], Num(0) := [Neg1()]])
  {
    ThreeSamplesKeys();
    ThreeSamplesSelect();
  }

  lemma TwoLabelsPrefix()
    ensures [Num(1), Num(0)][..1] == [Num(1)] && [Num(1)][..0] == []
  {
  }

  lemma ThreeSamplesMax()
    ensures MaxCount([Num(1), Num(0)], map[Num(1) := 2, Num(0) := 1]) == Some(2)
  {
    TwoLabelsPrefix();
  }

  lemma ThreeSamplesCycled()
    ensures Pool([Num(1), Num(0)], map[Num(1) := [Pos1(), Pos2()], Num(0) := [Neg1()]], 2)
      == [Pos1(), Pos2(), Neg1(), Neg1()]
  {
    var lists := map[Num(1) := [Pos1(), Pos2()], Num(0) := [Neg1()]];
    TwoLabelsPrefix();
    assert Cycle([Pos1(), Pos2()], 2) == [Pos1(), Pos2()];
    assert Cycle([Neg1()], 2) == [Neg1(), Neg1()];
    assert Pool([Num(1)], lists, 2) == [Pos1(), Pos2()];
  }

  /** The pool `upsample` shuffles for the three samples: each group is
      cycled up to the largest count, 2. */
  lemma ThreeSamplesPool()
    ensures StratifiedPool(ThreeSamples(), 1) == Success([Pos1(), Pos2(), Neg1(), Neg1()])
  {
    ThreeSamplesGrouped();
    ThreeSamplesMax();
    ThreeSamplesCycled();
  }

  /** The draws for which the shuffle gives the first printed result of
      the up-sampling example. */
  function FirstShuffleDraws(p: nat): nat { if p == 2 then 0 else 1 }

  /** The draws for which the shuffle gives its second printed result. */
  function SecondShuffleDraws(p: nat): nat { if p == 3 then 3 else 0 }

  /** The up-sampling example prints `[('neg1', 0), ('neg1', 0), ('pos1', 1),
      ('pos2', 1)]` and `[('pos2', 1), ('neg1', 0), ('pos1', 1), ('neg1', 0)]`:
      both are shuffles of the pool, each for its own generator draws. */
  lemma UpsamplePrinted()
    ensures StratifiedPool(ThreeSamples(), 1) == Success([Pos1(), Pos2(), Neg1(), Neg1()])
    ensures FisherYates([Pos1(), Pos2(), Neg1(), Neg1()], FirstShuffleDraws, 1)
      == [Neg1(), Neg1(), Pos1(), Pos2()]
    ensures FisherYates([Pos1(), Pos2(), Neg1(), Neg1()], SecondShuffleDraws, 1)
      == [Pos2(), Neg1(), Pos1(), Neg1()]
  {
    ThreeSamplesPool();
    FirstShuffle();
    SecondShuffle();
  }

  lemma FirstShuffle()
    ensures FisherYates([Pos1(), Pos2(), Neg1(), Neg1()], FirstShuffleDraws, 1)
      == [Neg1(), Neg1(), Pos1(), Pos2()]
  {
    var r := FirstShuffleDraws;
    var s0 := [Pos1(), Pos2(), Neg1(), Neg1()];
    var s1 := [Pos1(), Neg1(), Neg1(), Pos2()];
    var s2 := [Neg1(), Neg1(), Pos1(), Pos2()];
    assert r(3) % 4 == 1 && r(2) % 3 == 0 && r(1) % 2 == 1;
    assert FisherYates(s0, r, 4) == s0;
    assert FisherYates(s0, r, 3) == Swap(s0, 3, 1) == s1;
    assert FisherYates(s0, r, 2) == Swap(s1, 2, 0) == s2;
    assert FisherYates(s0, r, 1) == Swap(s2, 1, 1) == s2;
  }

  lemma SecondShuffle()
    ensures FisherYates([Pos1(), Pos2(), Neg1(), Neg1()], SecondShuffleDraws, 1)
      == [Pos2(), Neg1(), Pos1(), Neg1()]
  {
    var r := SecondShuffleDraws;
    var s0 := [Pos1(), Pos2(), Neg1(), Neg1()];
    var s2 := [Neg1(), Pos2(), Pos1(), Neg1()];
    var s3 := [Pos2(), Neg1(), Pos1(), Neg1()];
    assert r(3) % 4 == 3 && r(2) % 3 == 0 && r(1) % 2 == 0;
    assert FisherYates(s0, r, 4) == s0;
    assert FisherYates(s0, r, 3) == Swap(s0, 3, 3) == s0;
    assert FisherYates(s0, r, 2) == Swap(s0, 2, 0) == s2;
    assert FisherYates(s0, r, 1) == Swap(s2, 1, 0) == s3;
  }

  function Pos(): seq<Field> { [Str("pos"), Num(1)] }
  function Neg(): seq<Field> { [Str("neg"), Num(0)] }

  /** The samples of the `group_samples` example, the positive one twice. */
  function PairedSamples(): seq<seq<Field>> { [Pos(), Pos(), Neg()] }

  lemma PairedSamplesPrefixes()
    ensures PairedSamples()[..2] == [Pos(), Pos()]
    ensures [Pos(), Pos()][..1] == [Pos()] && [Pos()][..0] == []
  {
  }

  lemma LabelsOfPairedSamples()
    ensures LabelKey<Field>(1).requires(Pos()) && LabelKey<Field>(1)(Pos()) == Num(1)
    ensures LabelKey<Field>(1).requires(Neg()) && LabelKey<Field>(1)(Neg()) == Num(0)
  {
  }

  lemma PairedSamplesKeys()
    ensures KeyDefined(PairedSamples(), LabelKey<Field>(1))
    ensures Keys(PairedSamples(), LabelKey<Field>(1)) == [Num(1), Num(0)]
  {
    var key := LabelKey<Field>(1);
    PairedSamplesPrefixes();
    LabelsOfPairedSamples();
    assert Keys([Pos()], key) == [Num(1)];
    assert Keys([Pos(), Pos()], key) == [Num(1)];
  }

  lemma PairedSamplesSelect()
    ensures KeyDefined(PairedSamples(), LabelKey<Field>(1))
    ensures Select(PairedSamples(), LabelKey<Field>(1), Num(1)) == [Pos(), Pos()]
    ensures Select(PairedSamples(), LabelKey<Field>(1), Num(0)) == [Neg()]
  {
    var key := LabelKey<Field>(1);
    PairedSamplesPrefixes();
    LabelsOfPairedSamples();
    assert Select([Pos()], key, Num(1)) == [Pos()] && Select([Pos()], key, Num(0)) == [];
    assert Select([Pos(), Pos()], key, Num(1)) == [Pos(), Pos()];
    assert Select([Pos(), Pos()], key, Num(0)) == [];
  }

  lemma PairedSamplesCounts()
    ensures KeyDefined(PairedSamples(), LabelKey<Field>(1))
    ensures Counts(PairedSamples(), LabelKey<Field>(1)) == map[Num(1) := 2, Num(0) := 1]
  {
    var key := LabelKey<Field>(1);
    PairedSamplesPrefixes();
    LabelsOfPairedSamples();
    assert Counts([Pos()], key) == map[Num(1) := 1];
    assert Counts([Pos(), Pos()], key) == map[Num(1) := 2];
  }

  /** `group_samples([('pos', 1), ('pos', 1), ('neg', 0)], 1, True)` gives
      `OrderedDict([(1, [('pos', 1), ('pos', 1)]), (0, [('neg', 0)])])` and
      `Counter({1: 2, 0: 1})`: the repeated sample is kept twice. */
  lemma PairedSamplesGrouped()
    ensures GroupSamples(PairedSamples(), 1) ==
      Success((Groups([Num(1), Num(0)], map[Num(1) := [Pos(), Pos()], Num(0) := [Neg()]]),
               map[Num(1) := 2, Num(0) := 1]))
  {
    assert AllLabelled(PairedSamples(), 1);
    PairedSamplesGroupOf();
    PairedSamplesCounts();
  }

  lemma PairedSamplesGroupOf()
    ensures KeyDefined(PairedSamples(), LabelKey<Field>(1))
    ensures GroupOf(PairedSamples(), LabelKey<Field>(1))
      == Groups([Num(1), Num(0)], map[Num(1) := [Pos(), Pos()], Num(0) := [Neg()]])
  {
    PairedSamplesKeys();
    PairedSamplesSelect();
  }

  function FiveSamples(): seq<seq<Field>> { [Pos1(), Pos2(), Pos3(), Neg1(), Neg2()] }

  lemma FiveSamplesPrefixes()
    ensures FiveSamples()[..4] == [Pos1(), Pos2(), Pos3(), Neg1()]
    ensures [Pos1(), Pos2(), Pos3(), Neg1()][..3] == [Pos1(), Pos2(), Pos3()]
    ensures [Pos1(), Pos2(), Pos3()][..2] == [Pos1(), Pos2()]
    ensures [Pos1(), Pos2()][..1] == [Pos1()] && [Pos1()][..0] == []
  {
  }

  lemma FiveSamplesKeys()
    ensures KeyDefined(FiveSamples(), LabelKey<Field>(1))
    ensures Keys(FiveSamples(), LabelKey<Field>(1)) == [Num(1), Num(0)]
  {
    var key := LabelKey<Field>(1);
    FiveSamplesPrefixes();
    LabelsOfSamples();
    assert Keys([Pos1()], key) == [Num(1)];
    assert Keys([Pos1(), Pos2()], key) == [Num(1)];
    assert Keys([Pos1(), Pos2(), Pos3()], key) == [Num(1)];
    assert Keys([Pos1(), Pos2(), Pos3(), Neg1()], key) == [Num(1), Num(0)];
  }

  lemma FiveSamplesSelectPos()
    ensures KeyDefined(FiveSamples(), LabelKey<Field>(1))
    ensures Select(FiveSamples(), LabelKey<Field>(1), Num(1)) == [Pos1(), Pos2(), Pos3()]
  {
    var key := LabelKey<Field>(1);
    FiveSamplesPrefixes();
    LabelsOfSamples();
    assert Select([Pos1()], key, Num(1)) == [Pos1()];
    assert Select([Pos1(), Pos2()], key, Num(1)) == [Pos1(), Pos2()];
    assert Select([Pos1(), Pos2(), Pos3()], key, Num(1)) == [Pos1(), Pos2(), Pos3()];
    assert Select([Pos1(), Pos2(), Pos3(), Neg1()], key, Num(1)) == [Pos1(), Pos2(), Pos3()];
  }

  lemma FiveSamplesSelectNeg()
    ensures KeyDefined(FiveSamples(), LabelKey<Field>(1))
    ensures Select(FiveSamples(), LabelKey<Field>(1), Num(0)) == [Neg1(), Neg2()]
  {
    var key := LabelKey<Field>(1);
    FiveSamplesPrefixes();
    LabelsOfSamples();
    assert Select([Pos1()], key, Num(0)) == [];
    assert Select([Pos1(), Pos2()], key, Num(0)) == [];
    assert Select([Pos1(), Pos2(), Pos3()], key, Num(0)) == [];
    assert Select([Pos1(), Pos2(), Pos3(), Neg1()], key, Num(0)) == [Neg1()];
  }

  lemma FiveSamplesCounts()
    ensures KeyDefined(FiveSamples(), LabelKey<Field>(1))
    ensures Counts(FiveSamples(), LabelKey<Field>(1)) == map[Num(1) := 3, Num(0) := 2]
  {
    var key := LabelKey<Field>(1);
    FiveSamplesPrefixes();
    LabelsOfSamples();
    PositiveCounts();
    assert Counts([Pos1(), Pos2(), Pos3(), Neg1()], key) == map[Num(1) := 3, Num(0) := 1];
  }

  lemma PositiveCounts()
    ensures KeyDefined([Pos1(), Pos2(), Pos3()], LabelKey<Field>(1))
    ensures Counts([Pos1(), Pos2(), Pos3()], LabelKey<Field>(1)) == map[Num(1) := 3]
  {
    var key := LabelKey<Field>(1);
    FiveSamplesPrefixes();
    LabelsOfSamples();
    assert Counts([Pos1()], key) == map[Num(1) := 1];
    assert Counts([Pos1(), Pos2()], key) == map[Num(1) := 2];
  }

  lemma FiveSamplesGrouped()
    ensures GroupSamples(FiveSamples(), 1) ==
      Success((Groups([Num(1), Num(0)], map[Num(1) := [Pos1(), Pos2(), Pos3()], Num(0) := [Neg1(), Neg2()]]),
               map[Num(1) := 3, Num(0) := 2]))
  {
    LabelsOfSamples();
    assert AllLabelled(FiveSamples(), 1);
    FiveSamplesGroupOf();
    FiveSamplesCounts();
  }

  lemma FiveSamplesGroupOf()
    ensures KeyDefined(FiveSamples(), LabelKey<Field>(1))
    ensures GroupOf(FiveSamples(), LabelKey<Field>(1))
      == Groups([Num(1), Num(0)], map[Num(1) := [Pos1(), Pos2(), Pos3()], Num(0) := [Neg1(), Neg2()]])
  {
    FiveSamplesKeys();
    FiveSamplesSelectPos();
    FiveSamplesSelectNeg();
  }

  lemma FiveSamplesMin()
    ensures MinCount([Num(1), Num(0)], map[Num(1) := 3, Num(0) := 2]) == Some(2)
  {
    TwoLabelsPrefix();
  }

  lemma FirstDrawsFit()
    ensures DrawsFit([Num(1), Num(0)], map[Num(1) := [Pos1(), Pos2(), Pos3()], Num(0) := [Neg1(), Neg2()]],
                     [[1, 2], [1, 0]], 2)
  {
    assert IsDraw([1, 2], 3, 2) && IsDraw([1, 0], 2, 2);
  }

  lemma FirstBlocks()
    ensures DrawsFit([Num(1), Num(0)], map[Num(1) := [Pos1(), Pos2(), Pos3()], Num(0) := [Neg1(), Neg2()]],
                     [[1, 2], [1, 0]], 2)
    ensures Blocks([Num(1), Num(0)], map[Num(1) := [Pos1(), Pos2(), Pos3()], Num(0) := [Neg1(), Neg2()]],
                   [[1, 2], [1, 0]], 2) == [Pos2(), Pos3(), Neg2(), Neg1()]
  {
    var lists := map[Num(1) := [Pos1(), Pos2(), Pos3()], Num(0) := [Neg1(), Neg2()]];
    FirstDrawsFit();
    TwoLabelsPrefix();
    assert [[1, 2], [1, 0]][..1] == [[1, 2]] && [[1, 2]][..0] == [];
    assert Pick(lists[Num(1)], [1, 2]) == [Pos2(), Pos3()];
    assert Pick(lists[Num(0)], [1, 0]) == [Neg2(), Neg1()];
    assert Blocks([Num(1)], lists, [[1, 2]], 2) == [Pos2(), Pos3()];
  }

  /** `random_downsample(samples, 1, StableRandom(0), True)` prints
      `[('pos2', 1), ('pos3', 1), ('neg2', 0), ('neg1', 0)]`: the generator
      draws positions 1 and 2 of the positive group and 1 and 0 of the
      negative group, two from each since the smallest group has two. */
  lemma DownsampleFirstOutput()
    ensures DrawsMatch(FiveSamples(), 1, [[1, 2], [1, 0]])
    ensures Downsample(FiveSamples(), 1, [[1, 2], [1, 0]]) == Success([Pos2(), Pos3(), Neg2(), Neg1()])
  {
    FiveSamplesGrouped();
    FiveSamplesMin();
    FirstBlocks();
  }

  /** With no samples there is no largest or smallest class: both
      samplers raise ValueError. */
  lemma SamplersRejectEmpty<V>(labelcol: int)
    ensures StratifiedPool<V>([], labelcol) == Failure(ValueError)
    ensures DrawsMatch<V>([], labelcol, [])
    ensures Downsample<V>([], labelcol, []) == Failure(ValueError)
  {
  }

  /** `col_map((1, 2, 3), 1, add_n, 10)` is `(1, 12, 3)` and
      `col_map((1, 2, 3), (0, 2), add_n, 10)` is `(11, 2, 13)`. */
  lemma ColMapAddTen()
    ensures ColMap([1, 2, 3], {1}, x => x + 10) == [1, 12, 3]
    ensures ColMap([1, 2, 3], {0, 2}, x => x + 10) == [11, 2, 13]
  {
  }
}
