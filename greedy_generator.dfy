/**
 * The older `LanguageModel.text_generator` of `language_model.py`: after
 * the same seed normalisation, it repeatedly appends the last word of the
 * first trigram, in `tri_probabilities` order, that continues the current
 * two-word context with the strictly greatest positive probability, or
 * `""` when there is none. It stops only when the last word is `</s>` or
 * `""`, so it need not terminate; the model bounds the number of
 * iterations by a `fuel` argument and reports running out of it.
 */
module GreedyGenerator {
  import opened Vanilla
  import opened Generator
  import FrequencyCounts

  /**
   * `(word, max_prob_found)` after the inner `for` loop over `entries`: the
   * last word of the best continuation of `context` so far and its
   * probability, starting from `("", 0)`.
   */
  function Best(entries: seq<(NGram, real)>, context: NGram): (r: (string, real))
    ensures r.1 >= 0.0
    decreases |entries|
  {
    if entries == [] then ("", 0.0)
    else
      var b := Best(entries[..|entries| - 1], context);
      var e := entries[|entries| - 1];
      if Continues(e.0, context) && e.1 > b.1 then (e.0[|e.0| - 1], e.1) else b
  }

  /**
   * With no continuation of positive probability the result is `("", 0)`;
   * otherwise it is the last word and probability of the first entry that
   * continues `context` with the greatest probability.
   */
  lemma {:induction false} BestMeaning(entries: seq<(NGram, real)>, context: NGram)
    ensures var r := Best(entries, context);
      forall i :: 0 <= i < |entries| && Continues(entries[i].0, context) ==> entries[i].1 <= r.1
    ensures var r := Best(entries, context);
      r.1 == 0.0 ==> r.0 == ""
    ensures var r := Best(entries, context);
      r.1 > 0.0 ==> exists i :: (
        && 0 <= i < |entries| && Continues(entries[i].0, context)
        && entries[i].1 == r.1 && r.0 == entries[i].0[|entries[i].0| - 1]
        && forall j :: 0 <= j < i && Continues(entries[j].0, context) ==> entries[j].1 < r.1)
    decreases |entries|
  {
    if entries != [] {
      var n := |entries| - 1;
      var front := entries[..n];
      BestMeaning(front, context);
      var b := Best(front, context);
      var e := entries[n];
      forall i | 0 <= i < n
        ensures entries[i] == front[i]
      {
      }
      if !(Continues(e.0, context) && e.1 > b.1) && b.1 > 0.0 {
        var i :| 0 <= i < n && Continues(front[i].0, context)
          && front[i].1 == b.1 && b.0 == front[i].0[|front[i].0| - 1]
          && forall j :: 0 <= j < i && Continues(front[j].0, context) ==> front[j].1 < b.1;
        assert entries[i] == front[i];
      }
    }
  }

  /** No continuation of positive probability exactly when `""` is chosen with probability 0. */
  lemma BestEmpty(entries: seq<(NGram, real)>, context: NGram)
    ensures Best(entries, context).1 == 0.0 <==>
      forall i :: 0 <= i < |entries| && Continues(entries[i].0, context) ==> entries[i].1 <= 0.0
  {
    BestMeaning(entries, context);
    var r := Best(entries, context);
    if r.1 > 0.0 {
      var i :| 0 <= i < |entries| && Continues(entries[i].0, context) && entries[i].1 == r.1;
    }
  }

  /** The inner `for` loop of one iteration. */
  method BestContinuation(entries: seq<(NGram, real)>, context: NGram) returns (word: string, maxProbFound: real)
    ensures (word, maxProbFound) == Best(entries, context)
  {
    maxProbFound := 0.0;
    word := "";
    var i := 0;
    while i < |entries|
      invariant 0 <= i <= |entries|
      invariant (word, maxProbFound) == Best(entries[..i], context)
      decreases |entries| - i
    {
      var key, value := entries[i].0, entries[i].1;
      assert entries[..i + 1][..i] == entries[..i];
      if Continues(key, context) && value > maxProbFound {
        maxProbFound := value;
        word := key[|key| - 1];
      }
      i := i + 1;
    }
    assert entries[..i] == entries;
  }

  /** The word each context is continued with. */
  type Chooser = NGram -> string

  function BestBy(entries: seq<(NGram, real)>): Chooser {
    context => Best(entries, context).0
  }

  /** The loop condition fails: the last word is `</s>` or `""`. */
  predicate Ended(words: seq<string>)
    requires words != []
  {
    words[|words| - 1] == FrequencyCounts.EndMarker || words[|words| - 1] == ""
  }

  /**
   * The `while` loop from `words`, allowed at most `fuel` more iterations;
   * `None` when they do not suffice.
   */
  function GreedyRun(choose: Chooser, words: seq<string>, fuel: nat): (r: Option<seq<string>>)
    requires |words| >= 2
    ensures r.Some? ==> |words| <= |r.value| <= |words| + fuel && r.value[..|words|] == words && Ended(r.value)
    decreases fuel
  {
    if Ended(words) then Some(words)
    else if fuel == 0 then None
    else GreedyRun(choose, words + [choose(words[|words| - 2..])], fuel - 1)
  }

  /** The whole of the greedy `text_generator`: the loop only runs when the seed has a word. */
  function GreedyGenerate(phrase: string, entries: seq<(NGram, real)>, fuel: nat): (r: Option<seq<string>>)
    ensures r.Some? ==> |SeedWords(phrase)| <= |r.value| && r.value[..|SeedWords(phrase)|] == SeedWords(phrase)
  {
    var seed := SeedWords(phrase);
    if |seed| > 1 then GreedyRun(BestBy(entries), seed, fuel) else Some(seed)
  }

  /** After appending `w`, the last two words are the old last word and `w`. */
  lemma LastTwoGreedy(words: seq<string>, w: string)
    requires |words| >= 2
    ensures (words + [w])[|words| - 1..] == [words[|words| - 1], w]
  {
  }

  /**
   * The loop of the greedy `text_generator`, stopped after `fuel`
   * iterations; the context is kept as the last two words of `words`.
   */
  method GreedyLoop(entries: seq<(NGram, real)>, seed: seq<string>, fuel: nat) returns (result: Option<seq<string>>)
    requires |seed| >= 2
    ensures result == GreedyRun(BestBy(entries), seed, fuel)
  {
    var words := seed;
    var context := words[|words| - 2..];
    var left := fuel;
    while context[1] != FrequencyCounts.EndMarker && context[1] != ""
      invariant |words| >= 2
      invariant context == words[|words| - 2..]
      invariant GreedyRun(BestBy(entries), words, left) == GreedyRun(BestBy(entries), seed, fuel)
      decreases left
    {
      if left == 0 {
        return None;
      }
      var word, maxProbFound := BestContinuation(entries, context);
      assert word == BestBy(entries)(context);
      LastTwoGreedy(words, word);
      words := words + [word];
      context := [context[1], word];
      left := left - 1;
    }
    return Some(words);
  }

  /** The greedy `text_generator`, with `tri_probabilities.items()` as `entries`. */
  method GreedyTextGenerator(phrase: string, entries: seq<(NGram, real)>, fuel: nat) returns (result: Option<seq<string>>)
    ensures result == GreedyGenerate(phrase, entries, fuel)
  {
    var words := SeedWords(phrase);
    if |words| > 1 {
      result := GreedyLoop(entries, words, fuel);
    } else {
      result := Some(words);
    }
  }

  // ---------------------------------------------------------------------------
  // Properties of the greedy sampler

  /** More fuel never changes a result that was reached: the fuel only cuts off runs that do not end. */
  lemma {:induction false} GreedyRunFuel(choose: Chooser, words: seq<string>, fuel: nat, more: nat)
    requires |words| >= 2 && fuel <= more
    requires GreedyRun(choose, words, fuel).Some?
    ensures GreedyRun(choose, words, more) == GreedyRun(choose, words, fuel)
    decreases fuel
  {
    if !Ended(words) {
      GreedyRunFuel(choose, words + [choose(words[|words| - 2..])], fuel - 1, more - 1);
    }
  }

  /** Each word after `from` is the choice for the two words before it. */
  ghost predicate ChosenFrom(choose: Chooser, ws: seq<string>, from: nat)
    requires from >= 2
  {
    forall i :: from <= i < |ws| ==> ws[i] == choose(ws[i - 2..i])
  }

  /** Every word the loop appends is the choice for its context. */
  lemma {:induction false} GreedyRunChosen(choose: Chooser, words: seq<string>, fuel: nat)
    requires |words| >= 2
    ensures var r := GreedyRun(choose, words, fuel);
      r.Some? ==> ChosenFrom(choose, r.value, |words|)
    decreases fuel
  {
    if !Ended(words) && fuel > 0 {
      var w := choose(words[|words| - 2..]);
      var longer := words + [w];
      GreedyRunChosen(choose, longer, fuel - 1);
      var r := GreedyRun(choose, longer, fuel - 1);
      if r.Some? {
        PrefixSlice(r.value, longer, |words| - 2, |words|);
        assert longer[|words| - 2..|words|] == words[|words| - 2..];
        assert r.value[|words|] == longer[|words|];
      }
    }
  }

  /**
   * Every word the greedy generator appends to the seed is the best
   * continuation of the two words before it, and the last word is `</s>`
   * or `""` (no end marker is added after the loop).
   */
  lemma GreedyWords(phrase: string, entries: seq<(NGram, real)>, fuel: nat)
    requires |SeedWords(phrase)| > 1
    ensures var r := GreedyGenerate(phrase, entries, fuel);
      r.Some? ==> ChosenFrom(BestBy(entries), r.value, |SeedWords(phrase)|) && Ended(r.value)
  {
    var seed := SeedWords(phrase);
    GreedyRunChosen(BestBy(entries), seed, fuel);
    assert GreedyGenerate(phrase, entries, fuel) == GreedyRun(BestBy(entries), seed, fuel);
  }

  /** A phrase without words yields just `<s>`, and the loop does not run. */
  lemma GreedyBlankPhrase(phrase: string, entries: seq<(NGram, real)>, fuel: nat)
    requires Text.IsBlank(Text.RemovePunctuation(phrase))
    ensures GreedyGenerate(phrase, entries, fuel) == Some([FrequencyCounts.StartMarker])
  {
    SeedWordsEmpty(phrase);
  }

  /**
   * When no trigram continues the context with positive probability, `""`
   * is appended and the loop ends right after.
   */
  lemma GreedyDeadEnd(entries: seq<(NGram, real)>, words: seq<string>, fuel: nat)
    requires |words| >= 2 && !Ended(words) && fuel > 0
    requires forall i :: 0 <= i < |entries| && Continues(entries[i].0, words[|words| - 2..]) ==> entries[i].1 <= 0.0
    ensures GreedyRun(BestBy(entries), words, fuel) == Some(words + [""])
  {
    BestEmpty(entries, words[|words| - 2..]);
    BestMeaning(entries, words[|words| - 2..]);
    assert BestBy(entries)(words[|words| - 2..]) == "";
  }
}
