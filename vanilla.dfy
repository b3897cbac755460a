/**
 * The unsmoothed (maximum-likelihood) language model `VanillaLM`: its three
 * probability tables are filled from the count tables in place, and its
 * getters read them through `defaultdict(int)` lookups.
 *
 * Unigram tables are keyed by the token; bigram and trigram tables by the
 * n-gram as a word sequence (the Python tuple `tuple(key.split())`, which
 * gives back the words of a counted key, see `FrequencyCounts.WindowKeySplit`).
 */
module Vanilla {
  import opened Tables

  type NGram = seq<string>

  /** The first two words of `t` (`t[:2]`). */
  function Prefix2(t: NGram): NGram {
    if |t| >= 2 then t[..2] else t
  }

  /** Every bigram's first word has a positive unigram count (else the source divides by zero). */
  predicate BigramDenominators(uni: map<string, nat>, bi: map<NGram, nat>) {
    forall g :: g in bi ==> |g| >= 1 && g[0] in uni && uni[g[0]] > 0
  }

  /** Every trigram's leading bigram has a positive count (else the source divides by zero). */
  predicate TrigramDenominators(bi: map<NGram, nat>, tri: map<NGram, nat>) {
    forall g :: g in tri ==> |g| >= 2 && g[..2] in bi && bi[g[..2]] > 0
  }

  /** `count(w) / total`, for every counted `w`. */
  ghost function UnigramTable(uni: map<string, nat>): (r: map<string, real>)
    requires uni == map[] || Total(uni) > 0
    ensures r.Keys == uni.Keys
    ensures forall k :: k in r ==> r[k] * Total(uni) as real == uni[k] as real
  {
    map k | k in uni :: uni[k] as real / Total(uni) as real
  }

  /** `count(w1 w2) / count(w1)`, for every counted bigram. */
  function BigramTable(uni: map<string, nat>, bi: map<NGram, nat>): (r: map<NGram, real>)
    requires BigramDenominators(uni, bi)
    ensures r.Keys == bi.Keys
    ensures forall g :: g in r ==> r[g] * uni[g[0]] as real == bi[g] as real
  {
    map g | g in bi :: bi[g] as real / uni[g[0]] as real
  }

  /** `count(w1 w2 w3) / count(w1 w2)`, for every counted trigram. */
  function TrigramTable(bi: map<NGram, nat>, tri: map<NGram, nat>): (r: map<NGram, real>)
    requires TrigramDenominators(bi, tri)
    ensures r.Keys == tri.Keys
    ensures forall g :: g in r ==> r[g] * bi[g[..2]] as real == tri[g] as real
  {
    map g | g in tri :: tri[g] as real / bi[g[..2]] as real
  }

  /** `_default_uni_value`. */
  function DefaultUniValue(): real {
    0.0
  }

  class VanillaLM {
    var uniCount: map<string, nat>
    var biCount: map<NGram, nat>
    var triCount: map<NGram, nat>
    var uniProbabilities: map<string, real>
    var biProbabilities: map<NGram, real>
    var triProbabilities: map<NGram, real>

    /** The model as `__init__` leaves it once the counts are in place: all probability tables empty. */
    constructor (uni: map<string, nat>, bi: map<NGram, nat>, tri: map<NGram, nat>)
      ensures uniCount == uni && biCount == bi && triCount == tri
      ensures uniProbabilities == map[] && biProbabilities == map[] && triProbabilities == map[]
    {
      uniCount, biCount, triCount := uni, bi, tri;
      uniProbabilities, biProbabilities, triProbabilities := map[], map[], map[];
    }

    /** `_generate_unigram_probs`: every unigram key gets its count over the total count. */
    method GenerateUnigramProbs()
      requires uniCount == map[] || Total(uniCount) > 0
      modifies this`uniProbabilities
      ensures uniProbabilities == old(uniProbabilities) + UnigramTable(uniCount)
    {
      var total := SumValues(uniCount);
      ghost var table := UnigramTable(uniCount);
      ghost var base := uniProbabilities;
      var todo := uniCount.Keys;
      FilledStart(base, table);
      while todo != {}
        invariant todo <= uniCount.Keys
        invariant Filled(base, table, uniCount.Keys - todo, uniProbabilities)
        decreases todo
      {
        var key :| key in todo;
        ghost var done := uniCount.Keys - todo;
        FilledStep(base, table, done, uniProbabilities, key);
        uniProbabilities := uniProbabilities[key := uniCount[key] as real / total as real];
        todo := todo - {key};
        assert uniCount.Keys - todo == done + {key};
      }
      assert uniCount.Keys - todo == table.Keys;
      FilledAll(base, table, uniProbabilities);
    }

    /** `_generate_bigram_probs`: every bigram gets its count over its first word's count. */
    method GenerateBigramProbs()
      requires BigramDenominators(uniCount, biCount)
      modifies this`biProbabilities
      ensures biProbabilities == old(biProbabilities) + BigramTable(uniCount, biCount)
    {
      ghost var table := BigramTable(uniCount, biCount);
      ghost var base := biProbabilities;
      var todo := biCount.Keys;
      FilledStart(base, table);
      while todo != {}
        invariant todo <= biCount.Keys
        invariant Filled(base, table, biCount.Keys - todo, biProbabilities)
        decreases todo
      {
        var key :| key in todo;
        ghost var done := biCount.Keys - todo;
        var words := key;
        FilledStep(base, table, done, biProbabilities, key);
        biProbabilities := biProbabilities[words := biCount[key] as real / uniCount[words[0]] as real];
        todo := todo - {key};
        assert biCount.Keys - todo == done + {key};
      }
      assert biCount.Keys - todo == table.Keys;
      FilledAll(base, table, biProbabilities);
    }

    /** `_generate_trigram_probs`: every trigram gets its count over its leading bigram's count. */
    method GenerateTrigramProbs()
      requires TrigramDenominators(biCount, triCount)
      modifies this`triProbabilities
      ensures triProbabilities == old(triProbabilities) + TrigramTable(biCount, triCount)
    {
      ghost var table := TrigramTable(biCount, triCount);
      ghost var base := triProbabilities;
      var todo := triCount.Keys;
      FilledStart(base, table);
      while todo != {}
        invariant todo <= triCount.Keys
        invariant Filled(base, table, triCount.Keys - todo, triProbabilities)
        decreases todo
      {
        var key :| key in todo;
        ghost var done := triCount.Keys - todo;
        var words := key;
        var biGramKey := words[..2];
        FilledStep(base, table, done, triProbabilities, key);
        triProbabilities := triProbabilities[words := triCount[key] as real / biCount[biGramKey] as real];
        todo := todo - {key};
        assert triCount.Keys - todo == done + {key};
      }
      assert triCount.Keys - todo == table.Keys;
      FilledAll(base, table, triProbabilities);
    }

    /** `_get_bigram_probability`: the stored value; a missing bigram reads 0 and is inserted with 0. */
    method GetBigramProbability(bigram: NGram) returns (p: real)
      modifies this`biProbabilities
      ensures p == GetRealOr(old(biProbabilities), bigram, 0.0)
      ensures bigram in biProbabilities
      ensures biProbabilities == old(biProbabilities)[bigram := p]
    {
      if bigram !in biProbabilities {
        biProbabilities := biProbabilities[bigram := 0.0];
      }
      p := biProbabilities[bigram];
    }

    /** `_get_trigram_probability`: the stored value; a missing trigram reads 0 and is inserted with 0. */
    method GetTrigramProbability(trigram: NGram) returns (p: real)
      modifies this`triProbabilities
      ensures p == GetRealOr(old(triProbabilities), trigram, 0.0)
      ensures trigram in triProbabilities
      ensures triProbabilities == old(triProbabilities)[trigram := p]
    {
      if trigram !in triProbabilities {
        triProbabilities := triProbabilities[trigram := 0.0];
      }
      p := triProbabilities[trigram];
    }
  }

  // ---------------------------------------------------------------------------
  // What the tables promise

  /** The unigram probabilities sum to one. */
  lemma UnigramSumsToOne(uni: map<string, nat>)
    requires Total(uni) > 0
    ensures SumReal(UnigramTable(uni), uni.Keys) == 1.0
  {
    var d := Total(uni) as real;
    var table := UnigramTable(uni);
    SumOfRatios(uni, table, uni.Keys, d);
    DivSelf(d);
  }

  /** Each unigram probability lies in [0, 1]. */
  lemma UnigramInUnitInterval(uni: map<string, nat>, w: string)
    requires Total(uni) > 0 && w in uni
    ensures 0.0 <= UnigramTable(uni)[w] <= 1.0
  {
    SumOverBounds(uni, uni.Keys, w);
  }

  /** Every stored bigram and trigram probability is non-negative and zero only for a zero count. */
  lemma ConditionalTablesNonNegative(uni: map<string, nat>, bi: map<NGram, nat>, tri: map<NGram, nat>)
    requires BigramDenominators(uni, bi) && TrigramDenominators(bi, tri)
    ensures forall g :: g in bi ==> 0.0 <= BigramTable(uni, bi)[g] && (BigramTable(uni, bi)[g] == 0.0 <==> bi[g] == 0)
    ensures forall g :: g in tri ==> 0.0 <= TrigramTable(bi, tri)[g] && (TrigramTable(bi, tri)[g] == 0.0 <==> tri[g] == 0)
  {
  }

  /** Adding a key with count 0 leaves the total as it is. */
  lemma TotalWithZero(uni: map<string, nat>, w: string)
    requires w !in uni
    ensures Total(uni[w := 0]) == Total(uni)
  {
    var m := uni[w := 0];
    SumOverRemove(m, m.Keys, w);
    assert m.Keys - {w} == uni.Keys;
    SumOverAgree(uni, m, uni.Keys);
  }

  /**
   * An unseen word reads `_default_uni_value`, which is exactly what the
   * unigram formula gives the word counted with 0.
   */
  lemma UnseenUnigramIsZeroCount(uni: map<string, nat>, w: string)
    requires Total(uni) > 0 && w !in uni
    ensures Total(uni[w := 0]) == Total(uni)
    ensures UnigramTable(uni[w := 0])[w] == DefaultUniValue()
  {
    TotalWithZero(uni, w);
  }

  /**
   * An unseen bigram reads, and is stored with, 0.0 by `_get_bigram_probability`:
   * exactly what the bigram formula gives it counted with 0.
   */
  lemma UnseenBigramIsZeroCount(uni: map<string, nat>, bi: map<NGram, nat>, b: NGram)
    requires BigramDenominators(uni, bi) && b !in bi && |b| >= 1 && Get(uni, b[0]) > 0
    ensures BigramDenominators(uni, bi[b := 0])
    ensures BigramTable(uni, bi[b := 0])[b] == 0.0
  {
  }

  /**
   * An unseen trigram reads, and is stored with, 0.0 by `_get_trigram_probability`:
   * exactly what the trigram formula gives it counted with 0.
   */
  lemma UnseenTrigramIsZeroCount(bi: map<NGram, nat>, tri: map<NGram, nat>, t: NGram)
    requires TrigramDenominators(bi, tri) && t !in tri && |t| >= 2 && Get(bi, t[..2]) > 0
    ensures TrigramDenominators(bi, tri[t := 0])
    ensures TrigramTable(bi, tri[t := 0])[t] == 0.0
  {
  }
}
