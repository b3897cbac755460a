/**
 * The add-one (Laplace) language model `LaplaceLM`: every probability adds
 * one to the n-gram's count and the vocabulary size `V` (the number of
 * distinct unigrams) to the denominator, and `_linear_interpolation` mixes
 * the three orders with fixed weights 0.1, 0.3 and 0.6.
 *
 * The source reads `bi_count` and `tri_count` with word tuples and, once,
 * `bi_count` with a space-joined string (laplace.py:19, 26 and 39), while
 * the counting code stores space-joined strings. Here every bigram and
 * trigram table is keyed by the word sequence, so all of these reads find
 * the counted n-gram; the string/tuple mismatch itself is not modelled.
 */
module Laplace {
  import opened Tables
  import opened Vanilla

  /** Every value of the probability table `m` lies in [0, 1]. */
  predicate UnitValues<K>(m: map<K, real>) {
    forall k :: k in m ==> 0.0 <= m[k] <= 1.0
  }

  /** No value of the probability table `m` is negative. */
  predicate NonNegativeValues<K>(m: map<K, real>) {
    forall k :: k in m ==> 0.0 <= m[k]
  }

  /** Every value of the probability table `m` is strictly positive. */
  predicate PositiveValues<K>(m: map<K, real>) {
    forall k :: k in m ==> m[k] > 0.0
  }

  /** The add-one estimate `(count + 1) / (context + V)`. */
  function AddOne(count: nat, context: nat, vocabulary: nat): real
    requires context + vocabulary > 0
  {
    (count + 1) as real / (context + vocabulary) as real
  }

  /** An add-one estimate is positive, and at most 1 when the count is below `context + V`. */
  lemma AddOneBounds(count: nat, context: nat, vocabulary: nat)
    requires context + vocabulary > 0
    ensures AddOne(count, context, vocabulary) > 0.0
    ensures count < context + vocabulary ==> AddOne(count, context, vocabulary) <= 1.0
  {
  }

  /** `vocabulary` can stand for `len(uni_count)`: it is positive once a word is counted. */
  predicate ValidVocabulary(uni: map<string, nat>, vocabulary: nat) {
    uni != map[] ==> vocabulary > 0
  }

  /** The vocabulary size `len(uni_count)` is a valid vocabulary. */
  lemma VocabularySize(uni: map<string, nat>)
    ensures ValidVocabulary(uni, |uni|)
  {
  }

  /** `(count(w) + 1) / (total + V)`, for every counted `w`. */
  ghost function LaplaceUnigramTable(uni: map<string, nat>, vocabulary: nat): (r: map<string, real>)
    requires ValidVocabulary(uni, vocabulary)
    ensures r.Keys == uni.Keys
    ensures forall k :: k in r ==> r[k] > 0.0
  {
    map k | k in uni :: AddOne(uni[k], Total(uni), vocabulary)
  }

  /** Every bigram's first word is a counted unigram (the source's lookup would otherwise insert it). */
  predicate BigramFirstWords(uni: map<string, nat>, bi: map<NGram, nat>) {
    forall g :: g in bi ==> |g| >= 1 && g[0] in uni
  }

  /** `(count(w1 w2) + 1) / (count(w1) + V)`, for every counted bigram. */
  function LaplaceBigramTable(uni: map<string, nat>, bi: map<NGram, nat>, vocabulary: nat): (r: map<NGram, real>)
    requires BigramFirstWords(uni, bi) && ValidVocabulary(uni, vocabulary)
    ensures r.Keys == bi.Keys
    ensures forall g :: g in r ==> r[g] > 0.0
  {
    map g | g in bi :: AddOne(bi[g], uni[g[0]], vocabulary)
  }

  /** `order` lists every key of `m` once: the iteration order of a Python `dict`. */
  ghost predicate Enumerates<V>(order: seq<NGram>, m: map<NGram, V>) {
    && (forall i, j :: 0 <= i < j < |order| ==> order[i] != order[j])
    && (forall g :: g in m <==> g in order)
  }

  /** The first words of the bigrams in `order`. */
  function FirstWords(order: seq<NGram>): set<string>
    requires forall g :: g in order ==> |g| >= 1
    decreases |order|
  {
    if order == [] then {} else {order[0][0]} + FirstWords(order[1..])
  }

  /**
   * The `_bi_gram_prob` loop over the bigrams `order`, in that order, from the
   * unigram counts `uni` and the probabilities `probs`: the new counts and
   * the new probabilities. Reading `uni_count[w1]` on the `defaultdict(int)`
   * inserts an uncounted first word with 0 before `len(uni_count)` is read,
   * so the vocabulary size seen by the later bigrams grows.
   */
  function BigramPass(uni: map<string, nat>, bi: map<NGram, nat>, order: seq<NGram>, probs: map<NGram, real>)
    : (r: (map<string, nat>, map<NGram, real>))
    requires forall g :: g in order ==> g in bi && |g| >= 1
    decreases |order|
  {
    if order == [] then (uni, probs)
    else
      var g := order[0];
      var uni1 := if g[0] in uni then uni else uni[g[0] := 0];
      CardPositive(uni1, g[0]);
      BigramPass(uni1, bi, order[1..], probs[g := AddOne(bi[g], uni1[g[0]], |uni1|)])
  }

  /** `uni1` keeps every count of `uni` and counts 0 for each word it adds. */
  predicate ExtendsWithZeros(uni: map<string, nat>, uni1: map<string, nat>) {
    uni.Keys <= uni1.Keys && forall w :: w in uni1 ==> uni1[w] == Get(uni, w)
  }

  /**
   * The counts after the pass: exactly the uncounted first words of `order`
   * are inserted, each with 0; every counted word keeps its count.
   */
  lemma {:induction false} BigramPassCounts(uni: map<string, nat>, bi: map<NGram, nat>, order: seq<NGram>,
                                            probs: map<NGram, real>)
    requires forall g :: g in order ==> g in bi && |g| >= 1
    ensures BigramPass(uni, bi, order, probs).0.Keys == uni.Keys + FirstWords(order)
    ensures ExtendsWithZeros(uni, BigramPass(uni, bi, order, probs).0)
    decreases |order|
  {
    if order != [] {
      var g := order[0];
      var uni1 := if g[0] in uni then uni else uni[g[0] := 0];
      CardPositive(uni1, g[0]);
      var probs1 := probs[g := AddOne(bi[g], uni1[g[0]], |uni1|)];
      assert BigramPass(uni, bi, order, probs) == BigramPass(uni1, bi, order[1..], probs1);
      BigramPassCounts(uni1, bi, order[1..], probs1);
      assert FirstWords(order) == {g[0]} + FirstWords(order[1..]);
    }
  }

  /**
   * The probabilities after the pass: one entry is written for each bigram of
   * `order`, and each is positive, so positive probabilities stay positive.
   */
  lemma {:induction false} BigramPassProbabilities(uni: map<string, nat>, bi: map<NGram, nat>, order: seq<NGram>,
                                                   probs: map<NGram, real>)
    requires forall g :: g in order ==> g in bi && |g| >= 1
    ensures PositiveValues(probs) ==> PositiveValues(BigramPass(uni, bi, order, probs).1)
    decreases |order|
  {
    if order != [] {
      var g := order[0];
      var uni1 := if g[0] in uni then uni else uni[g[0] := 0];
      CardPositive(uni1, g[0]);
      var probs1 := probs[g := AddOne(bi[g], uni1[g[0]], |uni1|)];
      assert BigramPass(uni, bi, order, probs) == BigramPass(uni1, bi, order[1..], probs1);
      BigramPassProbabilities(uni1, bi, order[1..], probs1);
    }
  }

  /** `after` is `before` with an entry written for each key of `order`, and nothing else changed. */
  ghost predicate WritesExactly(order: seq<NGram>, before: map<NGram, real>, after: map<NGram, real>) {
    && (forall g :: g in order ==> g in after)
    && (forall g :: g !in order ==> (g in after <==> g in before))
    && (forall g :: g !in order && g in after ==> after[g] == before[g])
  }

  /**
   * The entries the pass writes: one for each bigram of `order`; every other
   * entry of `probs` is left as it was.
   */
  lemma {:induction false} BigramPassWrites(uni: map<string, nat>, bi: map<NGram, nat>, order: seq<NGram>,
                                            probs: map<NGram, real>)
    requires forall g :: g in order ==> g in bi && |g| >= 1
    ensures WritesExactly(order, probs, BigramPass(uni, bi, order, probs).1)
    decreases |order|
  {
    if order != [] {
      var g := order[0];
      var uni1 := if g[0] in uni then uni else uni[g[0] := 0];
      CardPositive(uni1, g[0]);
      var probs1 := probs[g := AddOne(bi[g], uni1[g[0]], |uni1|)];
      var after := BigramPass(uni1, bi, order[1..], probs1).1;
      assert BigramPass(uni, bi, order, probs).1 == after;
      BigramPassWrites(uni1, bi, order[1..], probs1);
      assert order == [g] + order[1..];
      forall h | h in order
        ensures h in after
      {
        if h != g {
          assert h in order[1..];
        }
      }
    }
  }

  /**
   * When every first word is counted, the pass inserts nothing into the
   * counts and writes, over `probs`, the add-one probabilities of the
   * bigrams in `order` with the vocabulary size fixed at `|uni|`.
   */
  lemma {:induction false} BigramPassCountedFrom(uni: map<string, nat>, bi: map<NGram, nat>, order: seq<NGram>,
                                                 base: map<NGram, real>, done: set<NGram>)
    requires BigramFirstWords(uni, bi) && (forall g :: g in order ==> g in bi) && done <= bi.Keys
    ensures BigramPass(uni, bi, order, base + Restrict(LaplaceBigramTable(uni, bi, |uni|), done))
         == (uni, base + Restrict(LaplaceBigramTable(uni, bi, |uni|), done + set g | g in order))
    decreases |order|
  {
    var table := LaplaceBigramTable(uni, bi, |uni|);
    if order == [] {
      assert done + (set g | g in order) == done;
    } else {
      var g := order[0];
      var probs := base + Restrict(table, done);
      assert g[0] in uni && table[g] == AddOne(bi[g], uni[g[0]], |uni|);
      assert BigramPass(uni, bi, order, probs) == BigramPass(uni, bi, order[1..], probs[g := table[g]]);
      RestrictStep(base, table, done, g);
      BigramPassCountedFrom(uni, bi, order[1..], base, done + {g});
      assert order == [g] + order[1..];
      assert done + {g} + (set h | h in order[1..]) == done + set h | h in order;
    }
  }

  /**
   * The partner of `BigramPass`: over a full enumeration of `bi` whose first
   * words are all counted, the pass leaves the counts as they are and merges
   * exactly `LaplaceBigramTable` into the probabilities.
   */
  lemma BigramPassCounted(uni: map<string, nat>, bi: map<NGram, nat>, order: seq<NGram>, probs: map<NGram, real>)
    requires BigramFirstWords(uni, bi) && Enumerates(order, bi)
    ensures BigramPass(uni, bi, order, probs) == (uni, probs + LaplaceBigramTable(uni, bi, |uni|))
  {
    var table := LaplaceBigramTable(uni, bi, |uni|);
    assert probs + Restrict(table, {}) == probs;
    BigramPassCountedFrom(uni, bi, order, probs, {});
    assert {} + (set g | g in order) == table.Keys;
    assert Restrict(table, table.Keys) == table;
  }

  /** Every trigram has two leading words and a non-zero denominator `count(w1 w2) + V`. */
  predicate TrigramPrefixes(bi: map<NGram, nat>, tri: map<NGram, nat>, vocabulary: nat) {
    forall g :: g in tri ==> |g| >= 2 && Get(bi, Prefix2(g)) + vocabulary > 0
  }

  /** `(count(w1 w2 w3) + 1) / (count(w1 w2) + V)`, an uncounted `w1 w2` counting 0. */
  function LaplaceTrigramTable(bi: map<NGram, nat>, tri: map<NGram, nat>, vocabulary: nat): (r: map<NGram, real>)
    requires TrigramPrefixes(bi, tri, vocabulary)
    ensures r.Keys == tri.Keys
    ensures forall g :: g in r ==> r[g] > 0.0
  {
    map g | g in tri :: AddOne(tri[g], Get(bi, Prefix2(g)), vocabulary)
  }

  /** The leading bigrams of the trigrams in `keys`. */
  function Prefixes(keys: set<NGram>): set<NGram> {
    set g | g in keys :: Prefix2(g)
  }

  /**
   * `bi` after the `defaultdict(int)` reads `bi[w1 w2]` for the trigrams in
   * `keys`: every read leading bigram is present, an uncounted one with 0.
   */
  function WithZeroPrefixes(bi: map<NGram, nat>, keys: set<NGram>): (r: map<NGram, nat>)
    ensures r.Keys == bi.Keys + Prefixes(keys)
    ensures forall p :: p in bi ==> r[p] == bi[p]
    ensures forall p :: p in r && p !in bi ==> r[p] == 0
  {
    map p | p in bi.Keys + Prefixes(keys) :: Get(bi, p)
  }

  /** The last two words of `t` (`t[-2:]`). */
  function Suffix2(t: NGram): NGram {
    if |t| >= 2 then t[|t| - 2..] else t
  }

  /**
   * `_linear_interpolation` on given tables: the unigram term reads the last
   * word's probability (0 when absent); an unseen bigram falls back to
   * `1 / (uni_count.get(w1, 1) + V)`, keyed by the FIRST word; an unseen
   * trigram to `1 / (bi_count.get(w1 w2, 1) + V)`.
   */
  function Interpolation(uniCount: map<string, nat>, biCount: map<NGram, nat>,
                         uniP: map<string, real>, biP: map<NGram, real>, triP: map<NGram, real>,
                         t: NGram): (r: real)
    requires |t| >= 1
    requires GetOr(biCount, Prefix2(t), 1) + |uniCount| > 0
    ensures UnitValues(uniP) && UnitValues(biP) && UnitValues(triP) ==> 0.0 <= r <= 1.0
    ensures NonNegativeValues(uniP) && NonNegativeValues(biP) && PositiveValues(triP) ==> r > 0.0
  {
    0.1 * GetRealOr(uniP, t[|t| - 1], 0.0) + 0.3 * BigramTerm(uniCount, biP, t) + 0.6 * TrigramTerm(uniCount, biCount, triP, t)
  }

  /** The bigram probability `Interpolation` uses: stored, or the fallback. */
  function BigramTerm(uniCount: map<string, nat>, biP: map<NGram, real>, t: NGram): (r: real)
    requires |t| >= 1
    ensures Suffix2(t) !in biP ==> 0.0 < r <= 1.0
  {
    GetRealOr(biP, Suffix2(t), 1.0 / (GetOr(uniCount, t[0], 1) + |uniCount|) as real)
  }

  /** The trigram probability `Interpolation` uses: stored, or the fallback. */
  function TrigramTerm(uniCount: map<string, nat>, biCount: map<NGram, nat>, triP: map<NGram, real>, t: NGram): (r: real)
    requires GetOr(biCount, Prefix2(t), 1) + |uniCount| > 0
    ensures t !in triP ==> 0.0 < r <= 1.0
  {
    GetRealOr(triP, t, 1.0 / (GetOr(biCount, Prefix2(t), 1) + |uniCount|) as real)
  }

  /** `_defualt_uni_value` as written: `1 / total + V`, by Python's operator precedence. */
  ghost function DefaultUniValueAsWritten(uni: map<string, nat>): (r: real)
    requires Total(uni) > 0
    ensures r > 1.0
  {
    1.0 / Total(uni) as real + |uni| as real
  }

  /** The add-one value of an unseen unigram, `1 / (total + V)`. */
  ghost function DefaultUniValue(uni: map<string, nat>): (r: real)
    requires Total(uni) + |uni| > 0
    ensures 0.0 < r <= 1.0
  {
    1.0 / (Total(uni) + |uni|) as real
  }

  class LaplaceLM {
    var uniCount: map<string, nat>
    var biCount: map<NGram, nat>
    var triCount: map<NGram, nat>
    var uniProbabilities: map<string, real>
    var biProbabilities: map<NGram, real>
    var triProbabilities: map<NGram, real>

    /** The model once its counts are in place: all probability tables empty. */
    constructor (uni: map<string, nat>, bi: map<NGram, nat>, tri: map<NGram, nat>)
      ensures uniCount == uni && biCount == bi && triCount == tri
      ensures uniProbabilities == map[] && biProbabilities == map[] && triProbabilities == map[]
    {
      uniCount, biCount, triCount := uni, bi, tri;
      uniProbabilities, biProbabilities, triProbabilities := map[], map[], map[];
    }

    /** `_uni_gram_prob`: every counted word gets `(count + 1) / (total + V)`. */
    method UniGramProb()
      modifies this`uniProbabilities
      ensures uniProbabilities == old(uniProbabilities) + LaplaceUnigramTable(uniCount, |uniCount|)
    {
      var totalTokens := SumValues(uniCount);
      var vocabulary := |uniCount|;
      VocabularySize(uniCount);
      FillUnigramProbs(totalTokens, vocabulary);
    }

    /** The loop of `_uni_gram_prob`, with the total and the vocabulary size computed. */
    method FillUnigramProbs(totalTokens: nat, vocabulary: nat)
      requires totalTokens == Total(uniCount) && ValidVocabulary(uniCount, vocabulary)
      modifies this`uniProbabilities
      ensures uniProbabilities == old(uniProbabilities) + LaplaceUnigramTable(uniCount, vocabulary)
    {
      ghost var table := LaplaceUnigramTable(uniCount, vocabulary);
      ghost var base := uniProbabilities;
      var todo := uniCount.Keys;
      FilledStart(base, table);
      while todo != {}
        invariant todo <= uniCount.Keys
        invariant Filled(base, table, uniCount.Keys - todo, uniProbabilities)
        decreases todo
      {
        var key :| key in todo;
        ghost var done := uniCount.Keys - todo;
        FilledStep(base, table, done, uniProbabilities, key);
        uniProbabilities := uniProbabilities[key := AddOne(uniCount[key], totalTokens, vocabulary)];
        todo := todo - {key};
        assert uniCount.Keys - todo == done + {key};
      }
      assert uniCount.Keys - todo == table.Keys;
      FilledAll(base, table, uniProbabilities);
    }

    /**
     * `_bi_gram_prob`, iterating over `bi_count` in the order `order`: each
     * bigram gets `(count(w1 w2) + 1) / (count(w1) + V)`, where reading
     * `uni_count[w1]` first inserts an uncounted `w1` with 0 and `V` is
     * `len(uni_count)` at that moment.
     */
    method BiGramProb(order: seq<NGram>)
      requires Enumerates(order, biCount)
      requires forall g :: g in biCount ==> |g| >= 1
      modifies this`uniCount, this`biProbabilities
      ensures (uniCount, biProbabilities) == BigramPass(old(uniCount), biCount, order, old(biProbabilities))
    {
      var i := 0;
      while i < |order|
        invariant 0 <= i <= |order|
        invariant BigramPass(uniCount, biCount, order[i..], biProbabilities)
               == BigramPass(old(uniCount), biCount, order, old(biProbabilities))
      {
        var words := order[i];
        assert order[i..] == [words] + order[i + 1..];
        if words[0] !in uniCount {
          uniCount := uniCount[words[0] := 0];
        }
        CardPositive(uniCount, words[0]);
        biProbabilities := biProbabilities[words := AddOne(biCount[words], uniCount[words[0]], |uniCount|)];
        i := i + 1;
      }
    }

    /**
     * `_tri_gram_prob`: every trigram gets `(count(w1 w2 w3) + 1) / (count(w1 w2) + V)`.
     * Reading `bi_count[w1 w2]` inserts 0 for an uncounted leading bigram,
     * so `biCount` changes too.
     */
    method TriGramProb()
      requires TrigramPrefixes(biCount, triCount, |uniCount|)
      modifies this`biCount, this`triProbabilities
      ensures triProbabilities == old(triProbabilities) + LaplaceTrigramTable(old(biCount), triCount, |uniCount|)
      ensures biCount == WithZeroPrefixes(old(biCount), triCount.Keys)
    {
      var vocabulary := |uniCount|;
      FillTrigramProbs(vocabulary);
    }

    /** The loop of `_tri_gram_prob`, with the vocabulary size computed. */
    method FillTrigramProbs(vocabulary: nat)
      requires TrigramPrefixes(biCount, triCount, vocabulary)
      modifies this`biCount, this`triProbabilities
      ensures triProbabilities == old(triProbabilities) + LaplaceTrigramTable(old(biCount), triCount, vocabulary)
      ensures biCount == WithZeroPrefixes(old(biCount), triCount.Keys)
    {
      ghost var bi0, base := biCount, triProbabilities;
      ghost var table := LaplaceTrigramTable(bi0, triCount, vocabulary);
      var todo := triCount.Keys;
      TriFilledStart(bi0, table, base);
      while todo != {}
        invariant todo <= triCount.Keys
        invariant TriFilled(bi0, table, base, triCount.Keys - todo, biCount, triProbabilities)
        decreases todo
      {
        var key :| key in todo;
        FillTrigram(key, vocabulary, bi0, table, base, todo);
        todo := todo - {key};
      }
      assert triCount.Keys - todo == triCount.Keys;
      TriFilledAll(bi0, table, base, triCount.Keys, biCount, triProbabilities);
    }

    /**
     * One pass of the `_tri_gram_prob` loop: `bi_count[w1 w2]` inserts 0 for
     * an uncounted leading bigram, then the trigram's probability is stored.
     */
    method FillTrigram(words: NGram, vocabulary: nat, ghost bi0: map<NGram, nat>, ghost table: map<NGram, real>,
                       ghost base: map<NGram, real>, ghost todo: set<NGram>)
      requires words in todo && todo <= triCount.Keys && |words| >= 2 && Get(bi0, Prefix2(words)) + vocabulary > 0
      requires words in table && table[words] == AddOne(triCount[words], Get(bi0, Prefix2(words)), vocabulary)
      requires TriFilled(bi0, table, base, triCount.Keys - todo, biCount, triProbabilities)
      modifies this`biCount, this`triProbabilities
      ensures TriFilled(bi0, table, base, triCount.Keys - (todo - {words}), biCount, triProbabilities)
      ensures biCount == if Prefix2(words) in old(biCount) then old(biCount) else old(biCount)[Prefix2(words) := 0]
      ensures triProbabilities == old(triProbabilities)[words := table[words]]
    {
      ghost var done := triCount.Keys - todo;
      WithZeroPrefixesStep(bi0, done, words);
      FilledStep(base, table, done, triProbabilities, words);
      assert triCount.Keys - (todo - {words}) == done + {words};
      var biGramKey := Prefix2(words);
      if biGramKey !in biCount {
        biCount := biCount[biGramKey := 0];
      }
      triProbabilities := triProbabilities[words := AddOne(triCount[words], biCount[biGramKey], vocabulary)];
    }

    /**
     * `_linear_interpolation(trigram)`. Reading `uni_probabilities[w3]` on
     * the `defaultdict(int)` inserts 0 for an unseen last word.
     */
    method LinearInterpolation(trigram: NGram) returns (p: real)
      requires |trigram| >= 1
      requires GetOr(biCount, Prefix2(trigram), 1) + |uniCount| > 0
      modifies this`uniProbabilities
      ensures p == Interpolation(uniCount, biCount, old(uniProbabilities), biProbabilities, triProbabilities, trigram)
      ensures uniProbabilities == old(uniProbabilities)[trigram[|trigram| - 1] := GetRealOr(old(uniProbabilities), trigram[|trigram| - 1], 0.0)]
    {
      var last := trigram[|trigram| - 1];
      if last !in uniProbabilities {
        uniProbabilities := uniProbabilities[last := 0.0];
      }
      var uniProb := 0.1 * uniProbabilities[last];
      var biDefault := 1.0 / (GetOr(uniCount, trigram[0], 1) + |uniCount|) as real;
      var biProb := 0.3 * GetRealOr(biProbabilities, Suffix2(trigram), biDefault);
      var triDefault := 1.0 / (GetOr(biCount, Prefix2(trigram), 1) + |uniCount|) as real;
      var triProb := 0.6 * GetRealOr(triProbabilities, trigram, triDefault);
      p := uniProb + biProb + triProb;
    }
  }

  /** Reading no leading bigram leaves `bi` as it is. */
  lemma WithZeroPrefixesNone(bi: map<NGram, nat>)
    ensures WithZeroPrefixes(bi, {}) == bi
  {
    assert Prefixes({}) == {};
  }

  /**
   * Reading the leading bigram of one more trigram `g` reads what `bi`
   * counts (0 if uncounted) and inserts 0 if it is not yet present.
   */
  lemma WithZeroPrefixesStep(bi: map<NGram, nat>, done: set<NGram>, g: NGram)
    ensures Get(WithZeroPrefixes(bi, done), Prefix2(g)) == Get(bi, Prefix2(g))
    ensures WithZeroPrefixes(bi, done + {g})
      == (var m := WithZeroPrefixes(bi, done); if Prefix2(g) in m then m else m[Prefix2(g) := 0])
  {
    var m := WithZeroPrefixes(bi, done);
    var m' := if Prefix2(g) in m then m else m[Prefix2(g) := 0];
    var w := WithZeroPrefixes(bi, done + {g});
    assert Prefixes(done + {g}) == Prefixes(done) + {Prefix2(g)};
    assert w.Keys == m'.Keys;
  }

  /**
   * Where `_tri_gram_prob` stands after the trigrams in `done`, started from
   * the counts `bi0` and the probabilities `base`: the probabilities of
   * `done` are written and their leading bigrams were read.
   */
  ghost predicate TriFilled(bi0: map<NGram, nat>, table: map<NGram, real>, base: map<NGram, real>,
                            done: set<NGram>, bi: map<NGram, nat>, probs: map<NGram, real>)
  {
    Filled(base, table, done, probs) && bi == WithZeroPrefixes(bi0, done)
  }

  lemma TriFilledStart(bi0: map<NGram, nat>, table: map<NGram, real>, base: map<NGram, real>)
    ensures TriFilled(bi0, table, base, {}, bi0, base)
  {
    FilledStart(base, table);
    WithZeroPrefixesNone(bi0);
  }

  /** Once every trigram is done, the tables are the ones the method promises. */
  lemma TriFilledAll(bi0: map<NGram, nat>, table: map<NGram, real>, base: map<NGram, real>, keys: set<NGram>,
                     bi: map<NGram, nat>, probs: map<NGram, real>)
    requires keys == table.Keys && TriFilled(bi0, table, base, keys, bi, probs)
    ensures probs == base + table
    ensures bi == WithZeroPrefixes(bi0, keys)
  {
    FilledAll(base, table, probs);
  }

  // ---------------------------------------------------------------------------
  // What the tables promise

  /** With add-one smoothing the unigram probabilities sum to exactly one: the numerators add up to `total + V`. */
  lemma LaplaceUnigramSumsToOne(uni: map<string, nat>)
    requires uni != map[]
    ensures SumReal(LaplaceUnigramTable(uni, |uni|), uni.Keys) == 1.0
  {
    var d := (Total(uni) + |uni|) as real;
    var table := LaplaceUnigramTable(uni, |uni|);
    var shifted := map k | k in uni :: uni[k] + 1;
    VocabularySize(uni);
    assert forall k :: k in uni.Keys ==> table[k] == shifted[k] as real / d;
    SumOfRatios(shifted, table, uni.Keys, d);
    SumOverAddOne(uni, shifted, uni.Keys);
    assert |uni.Keys| == |uni|;
    assert SumOver(shifted, uni.Keys) as real == d;
    DivSelf(d);
  }

  /** Every add-one unigram probability lies in (0, 1]. */
  lemma LaplaceUnigramInUnitInterval(uni: map<string, nat>, w: string)
    requires w in uni
    ensures 0.0 < LaplaceUnigramTable(uni, |uni|)[w] <= 1.0
  {
    SumOverBounds(uni, uni.Keys, w);
    assert |uni.Keys| >= 1;
    assert LaplaceUnigramTable(uni, |uni|)[w] == AddOne(uni[w], Total(uni), |uni|);
    AddOneBounds(uni[w], Total(uni), |uni|);
  }

  /**
   * The tables `LaplaceLM.__init__` leaves behind give a strictly positive
   * interpolation for every trigram, seen or not. The unigram probabilities
   * are computed first, from the counts `uni`; the bigram pass then grows
   * the counts to `uni1`; the trigram pass uses `len(uni1)` and grows the
   * bigram counts to `WithZeroPrefixes(bi, tri.Keys)`; the interpolation
   * reads those grown counts.
   */
  lemma LaplaceInterpolationPositive(uni: map<string, nat>, bi: map<NGram, nat>, tri: map<NGram, nat>,
                                     order: seq<NGram>, t: NGram)
    requires Enumerates(order, bi) && (forall g :: g in bi ==> |g| >= 1)
    requires TrigramPrefixes(bi, tri, |BigramPass(uni, bi, order, map[]).0|)
    requires |t| >= 1
    requires GetOr(WithZeroPrefixes(bi, tri.Keys), Prefix2(t), 1) + |BigramPass(uni, bi, order, map[]).0| > 0
    ensures var (uni1, biP) := BigramPass(uni, bi, order, map[]);
            Interpolation(uni1, WithZeroPrefixes(bi, tri.Keys), LaplaceUnigramTable(uni, |uni|), biP,
                          LaplaceTrigramTable(bi, tri, |uni1|), t) > 0.0
  {
    BigramPassProbabilities(uni, bi, order, map[]);
  }

  /** With one word counted once, the default as written is 2, and the corrected one is 1/2. */
  lemma DefaultUniValueAsWrittenExample(uni: map<string, nat>)
    requires uni == map["the" := 1]
    ensures Total(uni) == 1 && |uni| == 1
    ensures DefaultUniValueAsWritten(uni) == 2.0
    ensures DefaultUniValue(uni) == 0.5
  {
    SumOverRemove(uni, uni.Keys, "the");
    assert uni.Keys - {"the"} == {};
    assert |uni| == 1;
  }

  /** The corrected default is exactly the add-one probability of a word with count 0. */
  lemma DefaultUniValueIsUnseenProbability(uni: map<string, nat>, w: string)
    requires uni != map[] && w !in uni
    ensures DefaultUniValue(uni) == (Get(uni, w) + 1) as real / (Total(uni) + |uni|) as real
    ensures Total(uni) == 0 || DefaultUniValue(uni) < DefaultUniValueAsWritten(uni)
  {
    assert |uni.Keys| >= 1;
  }
}
