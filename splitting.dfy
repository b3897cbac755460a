/**
 * `split_and_append_elements`: shuffle a list of sentence elements in
 * place, cut it into parts whose sizes are `int(n * fraction)`, and
 * `extend` the receiving lists with the parts. `random.shuffle` is modelled
 * by its result, an arbitrary reordering of the list supplied by the
 * caller.
 */
module Splitting {

  /** A Python list that the split shuffles or extends in place. */
  class ElementList<T> {
    var items: seq<T>

    constructor (init: seq<T>)
      ensures items == init
    {
      items := init;
    }

    /** `list.extend(more)`. */
    method Extend(more: seq<T>)
      modifies this
      ensures items == old(items) + more
    {
      items := items + more;
    }

    /** `random.shuffle(list)`, with the order it produces given as `shuffled`. */
    method Shuffle(shuffled: seq<T>)
      requires multiset(shuffled) == multiset(items)
      modifies this
      ensures items == shuffled
    {
      items := shuffled;
    }
  }

  // ---------------------------------------------------------------------------
  // Part sizes

  /** `x.Floor` is the integer quotient when `x` is the exact fraction `m / q`. */
  lemma FloorOfQuotient(m: nat, q: nat, x: real)
    requires q > 0 && x == m as real / q as real
    ensures x.Floor == m / q
  {
    var d, r := m / q, m % q;
    assert m == d * q + r;
    assert x == d as real + r as real / q as real;
    assert 0.0 <= r as real / q as real < 1.0;
  }

  /** `int(n * 0.8)`: the training part of the two-way split is four fifths, rounded down. */
  function TrainSize80(n: nat): (k: nat)
    ensures k == 4 * n / 5 && k <= n
  {
    FloorOfQuotient(4 * n, 5, n as real * 0.8);
    (n as real * 0.8).Floor
  }

  /** `int(n * 0.7)`: seven tenths, rounded down. */
  function TrainSize70(n: nat): (k: nat)
    ensures k == 7 * n / 10 && k <= n
  {
    FloorOfQuotient(7 * n, 10, n as real * 0.7);
    (n as real * 0.7).Floor
  }

  /** `int(n * 0.2)`: two tenths, rounded down. */
  function ValidationSize20(n: nat): (k: nat)
    ensures k == 2 * n / 10 && k <= n
  {
    FloorOfQuotient(2 * n, 10, n as real * 0.2);
    (n as real * 0.2).Floor
  }

  /** The training and validation parts of the three-way split never exceed the list: the test part is not negative. */
  lemma ThreeWaySizes(n: nat)
    ensures TrainSize70(n) + ValidationSize20(n) <= n
    ensures n - TrainSize70(n) - ValidationSize20(n) >= n / 10
  {
    var t, v := 7 * n / 10, 2 * n / 10;
    assert t * 10 <= 7 * n && v * 10 <= 2 * n;
    assert (n / 10) * 10 <= n;
  }

  // ---------------------------------------------------------------------------
  // The parts

  /** `(s[:k], s[k:])` with `k = int(len(s) * 0.8)`. */
  function Partition80<T>(xs: seq<T>): (r: (seq<T>, seq<T>))
    ensures r.0 + r.1 == xs
    ensures |r.0| == 4 * |xs| / 5
    ensures multiset(r.0) + multiset(r.1) == multiset(xs)
  {
    var k := TrainSize80(|xs|);
    assert xs[..k] + xs[k..] == xs;
    (xs[..k], xs[k..])
  }

  /** `(s[:t], s[t:t + v], s[t + v:])` with `t = int(len(s) * 0.7)` and `v = int(len(s) * 0.2)`. */
  function Partition70<T>(xs: seq<T>): (r: (seq<T>, seq<T>, seq<T>))
    ensures r.0 + r.1 + r.2 == xs
    ensures |r.0| == 7 * |xs| / 10 && |r.1| == 2 * |xs| / 10
    ensures multiset(r.0) + multiset(r.1) + multiset(r.2) == multiset(xs)
  {
    var t, v := TrainSize70(|xs|), ValidationSize20(|xs|);
    ThreeWaySizes(|xs|);
    assert xs[..t] + xs[t..t + v] + xs[t + v..] == xs;
    (xs[..t], xs[t..t + v], xs[t + v..])
  }

  // ---------------------------------------------------------------------------
  // Splitting into lists owned by the caller

  /**
   * The 80/20 `split_and_append_elements(s_elements, training_set,
   * test_set)`: `s_elements` ends in its shuffled order, and the two
   * receiving lists keep their old contents followed by their part.
   */
  method SplitTrainTest<T>(sElements: ElementList<T>, trainingSet: ElementList<T>, testSet: ElementList<T>, shuffled: seq<T>)
    requires sElements != trainingSet && sElements != testSet && trainingSet != testSet
    requires multiset(shuffled) == multiset(sElements.items)
    modifies sElements, trainingSet, testSet
    ensures sElements.items == shuffled
    ensures trainingSet.items == old(trainingSet.items) + Partition80(shuffled).0
    ensures testSet.items == old(testSet.items) + Partition80(shuffled).1
  {
    var totalElements := |sElements.items|;
    assert |shuffled| == |multiset(shuffled)| == totalElements;
    var trainSize := TrainSize80(totalElements);
    sElements.Shuffle(shuffled);
    var trainElements := sElements.items[..trainSize];
    var testElements := sElements.items[trainSize..];
    trainingSet.Extend(trainElements);
    testSet.Extend(testElements);
  }

  /**
   * The 70/20/10 `split_and_append_elements` of `splitting.py`, into three
   * lists owned by the caller.
   */
  method SplitTrainValidationTest<T>(sElements: ElementList<T>, allTrain: ElementList<T>, allValidation: ElementList<T>,
                                     allTest: ElementList<T>, shuffled: seq<T>)
    requires sElements != allTrain && sElements != allValidation && sElements != allTest
    requires allTrain != allValidation && allTrain != allTest && allValidation != allTest
    requires multiset(shuffled) == multiset(sElements.items)
    modifies sElements, allTrain, allValidation, allTest
    ensures sElements.items == shuffled
    ensures allTrain.items == old(allTrain.items) + Partition70(shuffled).0
    ensures allValidation.items == old(allValidation.items) + Partition70(shuffled).1
    ensures allTest.items == old(allTest.items) + Partition70(shuffled).2
  {
    var totalElements := |sElements.items|;
    assert |shuffled| == |multiset(shuffled)| == totalElements;
    var trainSize := TrainSize70(totalElements);
    var validationSize := ValidationSize20(totalElements);
    ThreeWaySizes(totalElements);
    sElements.Shuffle(shuffled);
    var trainElements := sElements.items[..trainSize];
    var validationElements := sElements.items[trainSize..trainSize + validationSize];
    var testElements := sElements.items[trainSize + validationSize..];
    allTrain.Extend(trainElements);
    allValidation.Extend(validationElements);
    allTest.Extend(testElements);
  }

  // ---------------------------------------------------------------------------
  // Splitting into the module-level lists of `part2/splitting.py`

  /** The parts of every call, in call order, for each of the three lists. */
  function TrainParts<T>(calls: seq<seq<T>>): seq<T>
    decreases |calls|
  {
    if calls == [] then [] else TrainParts(calls[..|calls| - 1]) + Partition70(calls[|calls| - 1]).0
  }

  function ValidationParts<T>(calls: seq<seq<T>>): seq<T>
    decreases |calls|
  {
    if calls == [] then [] else ValidationParts(calls[..|calls| - 1]) + Partition70(calls[|calls| - 1]).1
  }

  function TestParts<T>(calls: seq<seq<T>>): seq<T>
    decreases |calls|
  {
    if calls == [] then [] else TestParts(calls[..|calls| - 1]) + Partition70(calls[|calls| - 1]).2
  }

  /** All the shuffled lists, in call order. */
  function Flatten<T>(calls: seq<seq<T>>): seq<T>
    decreases |calls|
  {
    if calls == [] then [] else Flatten(calls[..|calls| - 1]) + calls[|calls| - 1]
  }

  /** One more call appends its parts to each list. */
  lemma PartsSnoc<T>(calls: seq<seq<T>>, xs: seq<T>)
    ensures TrainParts(calls + [xs]) == TrainParts(calls) + Partition70(xs).0
    ensures ValidationParts(calls + [xs]) == ValidationParts(calls) + Partition70(xs).1
    ensures TestParts(calls + [xs]) == TestParts(calls) + Partition70(xs).2
  {
    assert (calls + [xs])[..|calls|] == calls;
  }

  /** Together the three lists hold every element of every call exactly once. */
  lemma {:induction false} PartsCover<T>(calls: seq<seq<T>>)
    ensures multiset(TrainParts(calls)) + multiset(ValidationParts(calls)) + multiset(TestParts(calls))
         == multiset(Flatten(calls))
    decreases |calls|
  {
    if calls != [] {
      PartsCover(calls[..|calls| - 1]);
    }
  }

  /**
   * `all_train_elements`, `all_validation_elements` and `all_test_elements`;
   * `calls` records the shuffled list of every call so far.
   */
  class GlobalSplits<T> {
    var allTrainElements: seq<T>
    var allValidationElements: seq<T>
    var allTestElements: seq<T>
    ghost var calls: seq<seq<T>>

    /** Each list is the concatenation of its parts of the calls, in call order. */
    ghost predicate Valid()
      reads this
    {
      && allTrainElements == TrainParts(calls)
      && allValidationElements == ValidationParts(calls)
      && allTestElements == TestParts(calls)
    }

    /** The three lists start empty when the module is loaded. */
    constructor ()
      ensures Valid() && calls == []
      ensures allTrainElements == [] && allValidationElements == [] && allTestElements == []
    {
      allTrainElements := [];
      allValidationElements := [];
      allTestElements := [];
      calls := [];
    }

    /** `split_and_append_elements(s_elements)`: shuffle, then append the three parts to the lists. */
    method SplitAndAppend(sElements: ElementList<T>, shuffled: seq<T>)
      requires Valid()
      requires multiset(shuffled) == multiset(sElements.items)
      modifies this, sElements
      ensures Valid() && calls == old(calls) + [shuffled]
      ensures sElements.items == shuffled
      ensures allTrainElements == old(allTrainElements) + Partition70(shuffled).0
      ensures allValidationElements == old(allValidationElements) + Partition70(shuffled).1
      ensures allTestElements == old(allTestElements) + Partition70(shuffled).2
    {
      var totalElements := |sElements.items|;
      assert |shuffled| == |multiset(shuffled)| == totalElements;
      var trainSize := TrainSize70(totalElements);
      var validationSize := ValidationSize20(totalElements);
      ThreeWaySizes(totalElements);
      sElements.Shuffle(shuffled);
      var trainElements := sElements.items[..trainSize];
      var validationElements := sElements.items[trainSize..trainSize + validationSize];
      var testElements := sElements.items[trainSize + validationSize..];
      allTrainElements := allTrainElements + trainElements;
      allValidationElements := allValidationElements + validationElements;
      allTestElements := allTestElements + testElements;
      PartsSnoc(calls, shuffled);
      calls := calls + [shuffled];
    }
  }
}
