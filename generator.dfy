/**
 * `LanguageModel.text_generator`: the bounded roulette sampler. The seed
 * phrase is stripped of punctuation, lower-cased and split; `<s>` is put in
 * front; then, while the last word is neither `</s>` nor `""` and fewer than
 * 100 words were sampled, the trigrams whose first two words are the
 * current context give the candidate next words, which are visited in
 * ascending probability order until their running sum exceeds a random
 * draw. `</s>` is appended at the end unless it is already the last word.
 *
 * `tri_probabilities.items()` is given as a sequence in the dictionary's
 * iteration order, and the successive `random.random()` draws as a
 * sequence of reals.
 */
module Generator {
  import opened Text
  import opened Vanilla
  import FrequencyCounts

  datatype Option<T> = None | Some(value: T)

  /** The loop samples at most this many words. */
  const MaxSteps := 100

  /** `<s>` followed by the lower-cased, punctuation-free words of `phrase`. */
  function SeedWords(phrase: string): (r: seq<string>)
    ensures |r| >= 1 && r[0] == FrequencyCounts.StartMarker
  {
    [FrequencyCounts.StartMarker] + Split(Lower(RemovePunctuation(phrase)))
  }

  /** A key continues a two-word context when its first two words are the context (`key[0:2] == context`). */
  predicate Continues(key: NGram, context: NGram) {
    |key| >= 2 && key[..2] == context
  }

  // ---------------------------------------------------------------------------
  // The `token_probabilities` dictionary

  /** A Python `dict` from tokens: its keys in insertion order, and its values. */
  datatype Dict = Dict(order: seq<string>, values: map<string, real>)

  /** The order lists every key exactly once. */
  predicate ValidDict(d: Dict) {
    && (forall i, j :: 0 <= i < j < |d.order| ==> d.order[i] != d.order[j])
    && d.values.Keys == set t | t in d.order
  }

  /** `d[t] = v`: a new key goes to the end of the order, an existing one keeps its place. */
  function Put(d: Dict, t: string, v: real): (r: Dict)
    requires ValidDict(d)
    ensures ValidDict(r)
    ensures r.values == d.values[t := v]
    ensures r.order == if t in d.values then d.order else d.order + [t]
  {
    if t in d.values then Dict(d.order, d.values[t := v]) else Dict(d.order + [t], d.values[t := v])
  }

  /** `d.items()`, in insertion order. */
  function Items(d: Dict): (r: seq<(string, real)>)
    requires ValidDict(d)
    ensures |r| == |d.order|
    ensures forall i :: 0 <= i < |r| ==> r[i] == (d.order[i], d.values[d.order[i]])
  {
    seq(|d.order|, i requires 0 <= i < |d.order| => (d.order[i], d.values[d.order[i]]))
  }

  /**
   * The dictionary the inner `for` loop builds from the first entries of
   * `tri_probabilities.items()`: every continuation of `context` stores its
   * probability under its last word, a later entry overwriting an earlier one.
   */
  function Candidates(entries: seq<(NGram, real)>, context: NGram): (d: Dict)
    ensures ValidDict(d)
    decreases |entries|
  {
    if entries == [] then Dict([], map[])
    else
      var d := Candidates(entries[..|entries| - 1], context);
      var e := entries[|entries| - 1];
      if Continues(e.0, context) then Put(d, e.0[|e.0| - 1], e.1) else d
  }

  /** Entry `i` continues `context` with the word `t`. */
  predicate Offers(entries: seq<(NGram, real)>, i: int, context: NGram, t: string) {
    0 <= i < |entries| && Continues(entries[i].0, context) && entries[i].0[|entries[i].0| - 1] == t
  }

  /**
   * A word is a candidate exactly when some entry continues the context
   * with it, and its value is that of the last such entry.
   */
  lemma {:induction false} CandidatesMeaning(entries: seq<(NGram, real)>, context: NGram, t: string)
    ensures t in Candidates(entries, context).values <==> exists i :: Offers(entries, i, context, t)
    ensures t in Candidates(entries, context).values ==>
      exists i :: Offers(entries, i, context, t) && Candidates(entries, context).values[t] == entries[i].1
        && forall j :: i < j < |entries| ==> !Offers(entries, j, context, t)
    decreases |entries|
  {
    if entries != [] {
      var n := |entries| - 1;
      var front := entries[..n];
      CandidatesMeaning(front, context, t);
      forall i | 0 <= i < n
        ensures Offers(front, i, context, t) == Offers(entries, i, context, t)
      {
        assert front[i] == entries[i];
      }
      if Offers(entries, n, context, t) {
        assert Candidates(entries, context).values[t] == entries[n].1;
      } else if t in Candidates(entries, context).values {
        var i :| Offers(front, i, context, t) && Candidates(front, context).values[t] == front[i].1
          && forall j :: i < j < n ==> !Offers(front, j, context, t);
        assert Offers(entries, i, context, t);
        forall j | i < j < |entries|
          ensures !Offers(entries, j, context, t)
        {
          if j < n {
            assert !Offers(front, j, context, t);
          }
        }
      }
    }
  }

  /** There is no candidate exactly when no entry continues the context: the `break` condition. */
  lemma CandidatesEmpty(entries: seq<(NGram, real)>, context: NGram)
    ensures Candidates(entries, context).order == [] <==> forall i :: 0 <= i < |entries| ==> !Continues(entries[i].0, context)
  {
    var d := Candidates(entries, context);
    if d.order != [] {
      var t := d.order[0];
      CandidatesMeaning(entries, context, t);
      var i :| Offers(entries, i, context, t);
    } else {
      forall i | 0 <= i < |entries|
        ensures !Continues(entries[i].0, context)
      {
        if Continues(entries[i].0, context) {
          var t := entries[i].0[|entries[i].0| - 1];
          assert Offers(entries, i, context, t);
          CandidatesMeaning(entries, context, t);
        }
      }
    }
  }

  // ---------------------------------------------------------------------------
  // `sorted(token_probabilities.items(), key=lambda item: item[1])`

  /** Ascending by probability. */
  predicate SortedByValue(s: seq<(string, real)>) {
    forall i, j :: 0 <= i < j < |s| ==> s[i].1 <= s[j].1
  }

  /** Puts `x` after every element whose value is not larger (so equal values keep their order). */
  function InsertByValue(x: (string, real), s: seq<(string, real)>): seq<(string, real)> {
    if s == [] then [x]
    else if x.1 < s[0].1 then [x] + s
    else [s[0]] + InsertByValue(x, s[1..])
  }

  /** Every value in `s` is at least `lo`. */
  predicate AllAtLeast(s: seq<(string, real)>, lo: real) {
    forall k :: 0 <= k < |s| ==> lo <= s[k].1
  }

  /** Inserting a value not below `lo` keeps every value at least `lo`. */
  lemma {:induction false} InsertByValueAtLeast(x: (string, real), s: seq<(string, real)>, lo: real)
    requires AllAtLeast(s, lo) && lo <= x.1
    ensures AllAtLeast(InsertByValue(x, s), lo)
  {
    if s != [] && x.1 >= s[0].1 {
      InsertByValueAtLeast(x, s[1..], lo);
    }
  }

  lemma {:induction false} InsertByValueSorted(x: (string, real), s: seq<(string, real)>)
    requires SortedByValue(s)
    ensures SortedByValue(InsertByValue(x, s))
  {
    if s != [] && x.1 >= s[0].1 {
      InsertByValueSorted(x, s[1..]);
      InsertByValueAtLeast(x, s[1..], s[0].1);
    }
  }

  /** Insertion adds `x` and loses nothing. */
  lemma {:induction false} InsertByValuePermutes(x: (string, real), s: seq<(string, real)>)
    ensures multiset(InsertByValue(x, s)) == multiset(s) + multiset{x}
  {
    if s != [] && x.1 >= s[0].1 {
      InsertByValuePermutes(x, s[1..]);
      assert s == [s[0]] + s[1..];
    }
  }

  /** A stable insertion sort by probability. */
  function SortByValue(items: seq<(string, real)>): seq<(string, real)>
    decreases |items|
  {
    if items == [] then [] else InsertByValue(items[|items| - 1], SortByValue(items[..|items| - 1]))
  }

  /** The candidates are visited in ascending probability order, each exactly once. */
  lemma {:induction false} SortByValueCorrect(items: seq<(string, real)>)
    ensures SortedByValue(SortByValue(items))
    ensures multiset(SortByValue(items)) == multiset(items)
    decreases |items|
  {
    if items != [] {
      var n := |items| - 1;
      SortByValueCorrect(items[..n]);
      InsertByValueSorted(items[n], SortByValue(items[..n]));
      InsertByValuePermutes(items[n], SortByValue(items[..n]));
      assert items == items[..n] + [items[n]];
    }
  }

  // ---------------------------------------------------------------------------
  // Roulette selection

  /** The sum of the probabilities in `s`. */
  function SumProbabilities(s: seq<(string, real)>): real
    decreases |s|
  {
    if s == [] then 0.0 else SumProbabilities(s[..|s| - 1]) + s[|s| - 1].1
  }

  /** The running sum after item `j`: `SumProbabilities(items[..j + 1])`. */
  function Running(items: seq<(string, real)>, j: nat): real
    requires j < |items|
  {
    SumProbabilities(items[..j + 1])
  }

  /**
   * The position the roulette loop stops at, looking from position `i` on:
   * the first `k` whose running sum `SumProbabilities(items[..k + 1])` exceeds `r`,
   * or -1 when none does.
   */
  function SelectFrom(items: seq<(string, real)>, r: real, i: nat): (k: int)
    requires i <= |items|
    ensures k == -1 || i <= k < |items|
    ensures k == -1 ==> forall j :: i <= j < |items| ==> Running(items, j) <= r
    ensures k >= 0 ==> Running(items, k) > r && forall j :: i <= j < k ==> Running(items, j) <= r
    decreases |items| - i
  {
    if i == |items| then -1
    else if Running(items, i) > r then i
    else SelectFrom(items, r, i + 1)
  }

  /**
   * The roulette choice over the whole list: the first position whose
   * running sum exceeds the draw `r`, or -1 when none does.
   */
  function Select(items: seq<(string, real)>, r: real): (k: int)
    ensures k == -1 || 0 <= k < |items|
    ensures k == -1 ==> forall j :: 0 <= j < |items| ==> Running(items, j) <= r
    ensures k >= 0 ==> Running(items, k) > r && forall j :: 0 <= j < k ==> Running(items, j) <= r
  {
    SelectFrom(items, r, 0)
  }

  /** The running sum after one more item. */
  lemma SumProbabilitiesStep(items: seq<(string, real)>, i: nat)
    requires i < |items|
    ensures SumProbabilities(items[..i + 1]) == SumProbabilities(items[..i]) + items[i].1
  {
    assert items[..i + 1][..i] == items[..i];
  }

  /**
   * The selection loop of `text_generator`: add each probability to the
   * running sum and stop at the first item whose sum exceeds the draw.
   */
  method RouletteSelect(items: seq<(string, real)>, randomDec: real) returns (k: int)
    ensures k == Select(items, randomDec)
    ensures k == -1 || 0 <= k < |items|
  {
    var probabilitiesSum := 0.0;
    var i := 0;
    k := -1;
    while i < |items|
      invariant 0 <= i <= |items|
      invariant probabilitiesSum == SumProbabilities(items[..i])
      invariant SelectFrom(items, randomDec, i) == Select(items, randomDec)
      decreases |items| - i
    {
      SumProbabilitiesStep(items, i);
      probabilitiesSum := probabilitiesSum + items[i].1;
      if probabilitiesSum > randomDec {
        k := i;
        return;
      }
      i := i + 1;
    }
  }

  /** `token_probabilities` built entry by entry, as the inner `for` loop does. */
  method CollectCandidates(entries: seq<(NGram, real)>, context: NGram) returns (d: Dict)
    ensures d == Candidates(entries, context)
  {
    d := Dict([], map[]);
    var i := 0;
    while i < |entries|
      invariant 0 <= i <= |entries|
      invariant d == Candidates(entries[..i], context)
      decreases |entries| - i
    {
      var key, value := entries[i].0, entries[i].1;
      assert entries[..i + 1][..i] == entries[..i];
      if Continues(key, context) {
        d := Put(d, key[|key| - 1], value);
      }
      i := i + 1;
    }
    assert entries[..i] == entries;
  }

  // ---------------------------------------------------------------------------
  // The sampling loop

  /** What `text_generator` prints, or the `NameError` raised when the first draw selects nothing. */
  datatype Outcome = Generated(words: seq<string>) | UnboundWordError

  /** Appends `</s>` unless it is already the last word. */
  function Finish(words: seq<string>): (r: seq<string>)
    requires |words| >= 1
    ensures |words| <= |r| && r[|r| - 1] == FrequencyCounts.EndMarker
    ensures r[..|words|] == words
    ensures words[|words| - 1] == FrequencyCounts.EndMarker ==> r == words
    ensures words[|words| - 1] != FrequencyCounts.EndMarker ==> |r| == |words| + 1
  {
    if words[|words| - 1] != FrequencyCounts.EndMarker then words + [FrequencyCounts.EndMarker] else words
  }

  /** The loop condition fails: the context ends the sentence or the step bound is reached. */
  predicate Halted(words: seq<string>, count: nat)
    requires words != []
  {
    words[|words| - 1] == FrequencyCounts.EndMarker || words[|words| - 1] == "" || count >= MaxSteps
  }

  /** The candidates of one iteration, ascending by probability. */
  function Ranked(entries: seq<(NGram, real)>, context: NGram): seq<(string, real)> {
    SortByValue(Items(Candidates(entries, context)))
  }

  /** The candidates of every context, in the order one iteration visits them. */
  type Ranking = NGram -> seq<(string, real)>

  function RankedBy(entries: seq<(NGram, real)>): Ranking {
    context => Ranked(entries, context)
  }

  /**
   * The `while` loop from the current word list, the current value of the
   * variable `word` (None while it is unbound) and the number of iterations
   * done so far, which is also the number of draws used. The context is the
   * last two words of the list.
   */
  function Run(ranking: Ranking, draws: nat -> real, words: seq<string>, word: Option<string>, count: nat): (r: Outcome)
    requires |words| >= 2 && count <= MaxSteps
    ensures r.Generated? ==> |words| <= |r.words| <= |words| + MaxSteps - count && r.words[..|words|] == words
    decreases MaxSteps - count
  {
    if Halted(words, count) || ranking(words[|words| - 2..]) == [] then Generated(words)
    else
      match Next(ranking(words[|words| - 2..]), draws(count), word)
      case None => UnboundWordError
      case Some(w) =>
        var r := Run(ranking, draws, words + [w], Some(w), count + 1);
        if r.Generated? then PrefixOfPrefix(words, words + [w], r.words); r else r
  }

  /** A prefix of a prefix is a prefix. */
  lemma PrefixOfPrefix<T>(a: seq<T>, b: seq<T>, c: seq<T>)
    requires |a| <= |b| <= |c| && b[..|a|] == a && c[..|b|] == b
    ensures c[..|a|] == a
  {
    assert c[..|a|] == c[..|b|][..|a|];
  }

  /** The value of `word` after one roulette draw: the selected token, or the old value when none is selected. */
  function Next(items: seq<(string, real)>, randomDec: real, word: Option<string>): (r: Option<string>)
  {
    var k := Select(items, randomDec);
    if 0 <= k < |items| then Some(items[k].0) else word
  }

  /**
   * The roulette step keeps the old `word` when no running sum exceeds the
   * draw; otherwise it picks the token at the first position whose running
   * sum does.
   */
  lemma NextChoice(items: seq<(string, real)>, randomDec: real, word: Option<string>)
    ensures (forall j :: 0 <= j < |items| ==> Running(items, j) <= randomDec) ==> Next(items, randomDec, word) == word
    ensures (exists j :: 0 <= j < |items| && Running(items, j) > randomDec) ==>
      exists k :: 0 <= k < |items| && Next(items, randomDec, word) == Some(items[k].0) && Running(items, k) > randomDec
        && forall j :: 0 <= j < k ==> Running(items, j) <= randomDec
  {
  }

  /** One iteration of the loop that appends `w`. */
  lemma RunStep(ranking: Ranking, draws: nat -> real, words: seq<string>, word: Option<string>, count: nat, w: string)
    requires |words| >= 2 && count <= MaxSteps && !Halted(words, count)
    requires ranking(words[|words| - 2..]) != []
    requires Next(ranking(words[|words| - 2..]), draws(count), word) == Some(w)
    ensures Run(ranking, draws, words, word, count) == Run(ranking, draws, words + [w], Some(w), count + 1)
  {
  }

  /**
   * What `text_generator` prints for the normalised seed words `seed`: the
   * loop runs if there is a seed word after `<s>`, then `</s>` is added.
   */
  function Sample(entries: seq<(NGram, real)>, draws: nat -> real, seed: seq<string>): (r: Outcome)
    requires |seed| >= 1
    ensures r.Generated? ==>
      && |seed| <= |r.words| <= |seed| + MaxSteps + 1
      && r.words[..|seed|] == seed
      && r.words[|r.words| - 1] == FrequencyCounts.EndMarker
  {
    if |seed| > 1 then
      match Run(RankedBy(entries), draws, seed, None, 0)
      case Generated(ws) => PrefixOfPrefix(seed, ws, Finish(ws)); Generated(Finish(ws))
      case UnboundWordError => UnboundWordError
    else Generated(Finish(seed))
  }

  /** The whole of `text_generator`: normalise the phrase into seed words, then sample. */
  function Generate(phrase: string, entries: seq<(NGram, real)>, draws: nat -> real): (r: Outcome)
    ensures r.Generated? ==>
      && |SeedWords(phrase)| + 1 <= |r.words| + 1 <= |SeedWords(phrase)| + MaxSteps + 2
      && r.words[..|SeedWords(phrase)|] == SeedWords(phrase)
      && r.words[0] == FrequencyCounts.StartMarker
      && r.words[|r.words| - 1] == FrequencyCounts.EndMarker
  {
    Sample(entries, draws, SeedWords(phrase))
  }

  /** After appending `w`, the last two words are the old last word and `w`: `context = (context[-1], word)`. */
  lemma LastTwo(words: seq<string>, w: string)
    requires |words| >= 2
    ensures (words + [w])[|words| - 1..] == [words[|words| - 1], w]
  {
  }

  /**
   * One iteration's choice: build `token_probabilities` for the context; if
   * it is empty report that (the `break`), otherwise draw `draws(count)` and
   * return the new value of `word`.
   */
  method ChooseNext(entries: seq<(NGram, real)>, draws: nat -> real, count: nat, context: NGram, word: Option<string>)
    returns (empty: bool, next: Option<string>)
    ensures empty <==> RankedBy(entries)(context) == []
    ensures !empty ==> next == Next(RankedBy(entries)(context), draws(count), word)
  {
    var tokenProbabilities := CollectCandidates(entries, context);
    empty := tokenProbabilities.order == [];
    next := word;
    if !empty {
      var randomDec := draws(count);
      var sorted := SortByValue(Items(tokenProbabilities));
      var k := RouletteSelect(sorted, randomDec);
      if k >= 0 {
        next := Some(sorted[k].0);
      }
    }
  }

  /**
   * The `while` loop of `text_generator`, from the seed word list; the
   * context is kept as the last two words of `words`.
   */
  method SampleLoop(entries: seq<(NGram, real)>, draws: nat -> real, seed: seq<string>) returns (result: Outcome)
    requires |seed| >= 2
    ensures result == Run(RankedBy(entries), draws, seed, None, 0)
  {
    var words := seed;
    var context := words[|words| - 2..];
    var counter := 0;
    var word: Option<string> := None;
    while context[1] != FrequencyCounts.EndMarker && context[1] != "" && counter < MaxSteps
      invariant |words| >= 2 && counter <= MaxSteps
      invariant context == words[|words| - 2..]
      invariant Run(RankedBy(entries), draws, words, word, counter) == Run(RankedBy(entries), draws, seed, None, 0)
      decreases MaxSteps - counter
    {
      var empty, next := ChooseNext(entries, draws, counter, context, word);
      if empty {
        return Generated(words);
      }
      if next == None {
        return UnboundWordError;
      }
      var w := next.value;
      RunStep(RankedBy(entries), draws, words, word, counter, w);
      LastTwo(words, w);
      word := next;
      words := words + [w];
      context := [context[1], w];
      counter := counter + 1;
    }
    return Generated(words);
  }

  /**
   * `text_generator`, with `tri_probabilities.items()` as `entries` and the
   * `i`-th call of `random.random()` answered by `draws(i)`.
   */
  method TextGenerator(phrase: string, entries: seq<(NGram, real)>, draws: nat -> real) returns (result: Outcome)
    ensures result == Generate(phrase, entries, draws)
  {
    var stripped := RemovePunctuation(phrase);
    var words := [FrequencyCounts.StartMarker] + Split(Lower(stripped));
    if |words| > 1 {
      var sampled := SampleLoop(entries, draws, words);
      if sampled.UnboundWordError? {
        return UnboundWordError;
      }
      words := sampled.words;
    }
    result := Generated(Finish(words));
  }

  // ---------------------------------------------------------------------------
  // Properties of the sampler

  /** `t` is the last word of some entry that continues `context`. */
  ghost predicate Offered(entries: seq<(NGram, real)>, context: NGram, t: string) {
    exists i :: Offers(entries, i, context, t)
  }

  /** Every ranked item is a candidate, with its stored probability. */
  lemma RankedMember(entries: seq<(NGram, real)>, context: NGram, x: (string, real))
    requires x in Ranked(entries, context)
    ensures x.0 in Candidates(entries, context).values
    ensures x.1 == Candidates(entries, context).values[x.0]
    ensures Offered(entries, context, x.0)
  {
    var items := Items(Candidates(entries, context));
    SortByValueCorrect(items);
    assert x in multiset(SortByValue(items));
    assert x in multiset(items);
    var i :| 0 <= i < |items| && items[i] == x;
    CandidatesMeaning(entries, context, x.0);
  }

  /** An iteration breaks out exactly when no entry continues the context. */
  lemma RankedEmpty(entries: seq<(NGram, real)>, context: NGram)
    ensures Ranked(entries, context) == [] <==> forall i :: 0 <= i < |entries| ==> !Continues(entries[i].0, context)
  {
    var items := Items(Candidates(entries, context));
    SortByValueCorrect(items);
    assert |SortByValue(items)| == |multiset(items)| == |items|;
    CandidatesEmpty(entries, context);
  }

  /** Once `word` is bound the loop cannot fail: the unbound-name error can only come from the first draw. */
  lemma {:induction false} RunBound(ranking: Ranking, draws: nat -> real, words: seq<string>, w: string, count: nat)
    requires |words| >= 2 && count <= MaxSteps
    ensures Run(ranking, draws, words, Some(w), count).Generated?
    decreases MaxSteps - count
  {
    if !Halted(words, count) && ranking(words[|words| - 2..]) != [] {
      var next := Next(ranking(words[|words| - 2..]), draws(count), Some(w));
      RunBound(ranking, draws, words + [next.value], next.value, count + 1);
    }
  }

  /**
   * `text_generator` fails exactly when the seed has a word, its context has
   * candidates, and the first draw is not exceeded by any running sum.
   */
  lemma SampleFails(entries: seq<(NGram, real)>, draws: nat -> real, seed: seq<string>)
    requires |seed| >= 1
    ensures Sample(entries, draws, seed) == UnboundWordError <==>
      && |seed| > 1
      && !Halted(seed, 0)
      && Ranked(entries, seed[|seed| - 2..]) != []
      && Select(Ranked(entries, seed[|seed| - 2..]), draws(0)) == -1
  {
    if |seed| > 1 && !Halted(seed, 0) && Ranked(entries, seed[|seed| - 2..]) != [] {
      var items := Ranked(entries, seed[|seed| - 2..]);
      assert RankedBy(entries)(seed[|seed| - 2..]) == items;
      var next := Next(items, draws(0), None);
      if next.Some? {
        RunBound(RankedBy(entries), draws, seed + [next.value], next.value, 1);
      }
    }
  }

  /** A slice inside a prefix is the same slice of the prefix. */
  lemma PrefixSlice(a: seq<string>, b: seq<string>, lo: int, hi: int)
    requires |b| <= |a| && a[..|b|] == b && 0 <= lo <= hi <= |b|
    ensures a[lo..hi] == b[lo..hi]
  {
    forall i | 0 <= i < hi - lo
      ensures a[lo..hi][i] == b[lo..hi][i]
    {
      assert a[lo + i] == a[..|b|][lo + i];
    }
  }

  /**
   * From position `from` on, each word either continues its context (the
   * two words before it) in some entry, or repeats the word before it.
   */
  ghost predicate AppendedFrom(entries: seq<(NGram, real)>, ws: seq<string>, from: nat)
    requires from >= 2
  {
    forall i :: from <= i < |ws| ==> Offered(entries, ws[i - 2..i], ws[i]) || ws[i] == ws[i - 1]
  }

  /** `t` is one of the ranked candidates of `context`. */
  ghost predicate Drawn(ranking: Ranking, context: NGram, t: string) {
    exists k :: 0 <= k < |ranking(context)| && ranking(context)[k].0 == t
  }

  /** From position `from` on, each word is a ranked candidate of the two words before it or repeats the word before it. */
  ghost predicate DrawnFrom(ranking: Ranking, ws: seq<string>, from: nat)
    requires from >= 2
  {
    forall i :: from <= i < |ws| ==> Drawn(ranking, ws[i - 2..i], ws[i]) || ws[i] == ws[i - 1]
  }

  /**
   * Each word the loop appends is a candidate of its context, or repeats
   * the previous word (the draw selected nothing and `word` kept its old
   * value).
   */
  lemma {:induction false} RunDrawn(ranking: Ranking, draws: nat -> real, words: seq<string>, word: Option<string>, count: nat)
    requires |words| >= 2 && count <= MaxSteps
    requires word.Some? ==> word.value == words[|words| - 1]
    ensures var r := Run(ranking, draws, words, word, count);
      r.Generated? ==> DrawnFrom(ranking, r.words, |words|)
    decreases MaxSteps - count
  {
    var context := words[|words| - 2..];
    if !Halted(words, count) && ranking(context) != [] {
      var next := Next(ranking(context), draws(count), word);
      if next.Some? {
        var w := next.value;
        var longer := words + [w];
        RunDrawn(ranking, draws, longer, next, count + 1);
        var r := Run(ranking, draws, longer, next, count + 1);
        if r.Generated? {
          var k := Select(ranking(context), draws(count));
          assert Drawn(ranking, context, w) || word == next;
          PrefixSlice(r.words, longer, |words| - 2, |words|);
          assert longer[|words| - 2..|words|] == context;
          assert r.words[|words|] == w;
          assert r.words[|words| - 1] == words[|words| - 1];
        }
      }
    }
  }

  /** For the trigram entries, a ranked candidate continues its context in some entry. */
  lemma DrawnOffered(entries: seq<(NGram, real)>, ws: seq<string>, from: nat)
    requires from >= 2 && DrawnFrom(RankedBy(entries), ws, from)
    ensures AppendedFrom(entries, ws, from)
  {
    forall i | from <= i < |ws| && Drawn(RankedBy(entries), ws[i - 2..i], ws[i])
      ensures Offered(entries, ws[i - 2..i], ws[i])
    {
      var context := ws[i - 2..i];
      var k :| 0 <= k < |RankedBy(entries)(context)| && RankedBy(entries)(context)[k].0 == ws[i];
      RankedMember(entries, context, Ranked(entries, context)[k]);
    }
  }

  /** `AppendedFrom` holds of every prefix. */
  lemma AppendedPrefix(entries: seq<(NGram, real)>, ws: seq<string>, n: nat, from: nat)
    requires from >= 2 && n <= |ws| && AppendedFrom(entries, ws, from)
    ensures AppendedFrom(entries, ws[..n], from)
  {
    forall i | from <= i < n
      ensures Offered(entries, ws[..n][i - 2..i], ws[..n][i]) || ws[..n][i] == ws[..n][i - 1]
    {
      assert ws[..n][i - 2..i] == ws[i - 2..i];
    }
  }

  /**
   * Every word `text_generator` prints after the seed, except the final
   * `</s>`, continues its two-word context in some trigram entry or repeats
   * the word before it.
   */
  lemma SampleWords(entries: seq<(NGram, real)>, draws: nat -> real, seed: seq<string>)
    requires |seed| > 1
    ensures Sample(entries, draws, seed).Generated? ==> PrintedFrom(entries, Sample(entries, draws, seed).words, |seed|)
  {
    RunDrawn(RankedBy(entries), draws, seed, None, 0);
    var run := Run(RankedBy(entries), draws, seed, None, 0);
    if run.Generated? {
      DrawnOffered(entries, run.words, |seed|);
      FinishKeeps(entries, run.words, |seed|);
      assert Sample(entries, draws, seed) == Generated(Finish(run.words));
    } else {
      assert Sample(entries, draws, seed) == UnboundWordError;
    }
  }

  /** `AppendedFrom` for every word but the last, which is `</s>` in what is printed. */
  ghost predicate PrintedFrom(entries: seq<(NGram, real)>, ws: seq<string>, from: nat)
    requires from >= 2
  {
    ws != [] && AppendedFrom(entries, ws[..|ws| - 1], from)
  }

  /** Adding `</s>` leaves every earlier word in place. */
  lemma FinishKeeps(entries: seq<(NGram, real)>, ws: seq<string>, from: nat)
    requires 2 <= from <= |ws| && AppendedFrom(entries, ws, from)
    ensures PrintedFrom(entries, Finish(ws), from)
  {
    var fs := Finish(ws);
    if |fs| == |ws| {
      AppendedPrefix(entries, ws, |ws| - 1, from);
    } else {
      assert fs[..|fs| - 1] == ws;
    }
  }

  /** The last word is `</s>` or `""`, the list has reached `bound` words, or the last two words have no candidates. */
  predicate StoppedAt(ranking: Ranking, ws: seq<string>, bound: nat)
    requires |ws| >= 2
  {
    || ws[|ws| - 1] == FrequencyCounts.EndMarker
    || ws[|ws| - 1] == ""
    || |ws| == bound
    || ranking(ws[|ws| - 2..]) == []
  }

  /**
   * The loop ends with `</s>` or `""` as the last word, with the step bound
   * used up, or with no entry continuing the last two words.
   */
  lemma {:induction false} RunStops(ranking: Ranking, draws: nat -> real, words: seq<string>, word: Option<string>, count: nat)
    requires |words| >= 2 && count <= MaxSteps
    ensures var r := Run(ranking, draws, words, word, count);
      r.Generated? ==> StoppedAt(ranking, r.words, |words| + MaxSteps - count)
    decreases MaxSteps - count
  {
    if !Halted(words, count) && ranking(words[|words| - 2..]) != [] {
      var next := Next(ranking(words[|words| - 2..]), draws(count), word);
      if next.Some? {
        RunStops(ranking, draws, words + [next.value], next, count + 1);
      }
    }
  }

  /** The same for the trigram entries: an early stop is `</s>`, `""`, or a context no trigram continues. */
  lemma GenerateStops(entries: seq<(NGram, real)>, draws: nat -> real, seed: seq<string>)
    requires |seed| >= 2
    ensures var r := Run(RankedBy(entries), draws, seed, None, 0);
      r.Generated? ==>
        || r.words[|r.words| - 1] == FrequencyCounts.EndMarker
        || r.words[|r.words| - 1] == ""
        || |r.words| == |seed| + MaxSteps
        || forall i :: 0 <= i < |entries| ==> !Continues(entries[i].0, r.words[|r.words| - 2..])
  {
    RunStops(RankedBy(entries), draws, seed, None, 0);
    var r := Run(RankedBy(entries), draws, seed, None, 0);
    if r.Generated? {
      RankedEmpty(entries, r.words[|r.words| - 2..]);
    }
  }

  /** The seed has no word exactly when the punctuation-free phrase is blank. */
  lemma SeedWordsEmpty(phrase: string)
    ensures |SeedWords(phrase)| == 1 <==> IsBlank(RemovePunctuation(phrase))
  {
    LowerKeepsBlank(RemovePunctuation(phrase));
    SplitEmptyIffBlank(Lower(RemovePunctuation(phrase)));
  }

  /** A phrase without words generates `<s> </s>` and draws nothing. */
  lemma BlankPhrase(phrase: string, entries: seq<(NGram, real)>, draws: nat -> real)
    requires IsBlank(RemovePunctuation(phrase))
    ensures Generate(phrase, entries, draws) == Generated([FrequencyCounts.StartMarker, FrequencyCounts.EndMarker])
  {
    SeedWordsEmpty(phrase);
  }
}
