/**
 * N-gram counting of one sentence (`handle_sentence`, `handle_sentence_unk`):
 * the sentence is padded with `n` start markers and one end marker, a window
 * of width `n` slides over the padded words, and the count of each window's
 * space-joined key is incremented in the caller's `defaultdict(int)`.
 */
module FrequencyCounts {
  import opened Text
  import opened Tables

  const StartMarker := "<s>"
  const EndMarker := "</s>"
  const UnknownMarker := "<UNK>"

  /** A `defaultdict(int)` of n-gram counts that the counting functions update in place. */
  class Counter {
    /** Keys absent from `table` count 0. */
    var table: map<string, nat>

    constructor ()
      ensures table == map[]
    {
      table := map[];
    }

    /** `counts[key] += 1`. */
    method Increment(key: string)
      modifies this
      ensures table == Tables.Increment(old(table), key)
    {
      table := Tables.Increment(table, key);
    }
  }

  function Repeat<T>(x: T, n: nat): (r: seq<T>)
    ensures |r| == n
    ensures forall i :: 0 <= i < n ==> r[i] == x
  {
    if n == 0 then [] else [x] + Repeat(x, n - 1)
  }

  /** The word list of a padded sentence: `n` start markers, the content, one end marker. */
  function Padded(content: seq<string>, n: nat): seq<string> {
    Repeat(StartMarker, n) + content + [EndMarker]
  }

  /** `len(range(len(words) - n + 1))`: how many windows the loop visits. */
  function WindowCount(words: seq<string>, n: nat): nat {
    if |words| + 1 >= n then |words| + 1 - n else 0
  }

  /** The key counted for each window, in loop order: `" ".join(words[i:i + n])`. */
  function WindowKeys(words: seq<string>, n: nat): (r: seq<string>)
    ensures |r| == WindowCount(words, n)
  {
    seq(WindowCount(words, n), i requires 0 <= i < WindowCount(words, n) => Join(words[i..i + n]))
  }

  /** The key of window `i`; for unigrams it is the word itself. */
  lemma WindowKeyAt(words: seq<string>, n: nat, i: nat)
    requires i < WindowCount(words, n)
    ensures i + n <= |words|
    ensures WindowKeys(words, n)[i] == Join(words[i..i + n])
    ensures n == 1 ==> WindowKeys(words, n)[i] == words[i]
  {
  }

  /** The word list while window `j` is counted: positions before `j` rewritten to `<UNK>` if unknown. */
  function RewrittenBefore(words: seq<string>, unknown: set<string>, j: nat): (r: seq<string>)
    ensures |r| == |words|
  {
    seq(|words|, i requires 0 <= i < |words| =>
      if i < j && words[i] in unknown then UnknownMarker else words[i])
  }

  /** Rewriting one more position extends the rewritten prefix by one. */
  lemma RewriteStep(words: seq<string>, unknown: set<string>, j: nat)
    requires j < |words|
    ensures RewrittenBefore(words, unknown, j + 1)
      == RewrittenBefore(words, unknown, j)[j := if words[j] in unknown then UnknownMarker else words[j]]
  {
  }

  /** The key of window `i`, read off the word list in the state the loop has reached. */
  lemma UnkKeyAt(original: seq<string>, n: nat, unknown: set<string>, i: nat, words: seq<string>)
    requires i < WindowCount(original, n) && n >= 1
    requires words == RewrittenBefore(original, unknown, i + 1)
    ensures i + n <= |words|
    ensures UnkWindowKeys(original, n, unknown)[i] == Join(words[i..i + n])
    ensures n == 1 ==> UnkWindowKeys(original, n, unknown)[i] == words[i]
  {
  }

  /** The keys `handle_sentence_unk` counts: window `i` sees positions up to `i` rewritten, later ones as read. */
  function UnkWindowKeys(words: seq<string>, n: nat, unknown: set<string>): (r: seq<string>)
    ensures |r| == WindowCount(words, n)
  {
    seq(WindowCount(words, n), i requires 0 <= i < WindowCount(words, n) =>
      Join(RewrittenBefore(words, unknown, i + 1)[i..i + n]))
  }

  /** The padded text splits into start markers, the sentence's words and the end marker. */
  lemma {:induction false} SplitPadded(text: string, n: nat)
    ensures Split(RepeatString("<s> ", n) + text + " </s>") == Padded(Split(text), n)
    decreases n
  {
    if n == 0 {
      assert RepeatString("<s> ", n) + text + " </s>" == text + " " + EndMarker;
      SplitAppend(text, EndMarker);
      SplitToken(EndMarker);
    } else {
      var rest := RepeatString("<s> ", n - 1) + text + " </s>";
      assert RepeatString("<s> ", n) + text + " </s>" == StartMarker + " " + rest;
      SplitAppend(StartMarker, rest);
      SplitToken(StartMarker);
      SplitPadded(text, n - 1);
      assert Repeat(StartMarker, n) == [StartMarker] + Repeat(StartMarker, n - 1);
    }
  }

  /**
   * `handle_sentence` on the text `retrieve_text` returned for one sentence.
   * A blank sentence changes nothing; otherwise every window of the padded
   * word list increments its key once, in order.
   */
  method HandleSentence(text: string, n: nat, counts: Counter)
    modifies counts
    ensures IsBlank(text) ==> counts.table == old(counts.table)
    ensures !IsBlank(text) ==>
      counts.table == AddAll(old(counts.table), WindowKeys(Padded(Split(text), n), n))
  {
    if !IsBlank(text) {
      var padded := RepeatString("<s> ", n) + text + " </s>";
      var words := Split(padded);
      SplitPadded(text, n);
      var index := 0;
      while index < |words| - n + 1
        invariant 0 <= index <= WindowCount(words, n)
        invariant counts.table == AddAll(old(counts.table), WindowKeys(words, n)[..index])
      {
        var nGram := if n == 1 then words[index] else Join(words[index..index + n]);
        WindowKeyAt(words, n, index);
        AddAllPrefixStep(old(counts.table), WindowKeys(words, n), index);
        counts.Increment(nGram);
        index := index + 1;
      }
      assert WindowKeys(words, n)[..index] == WindowKeys(words, n);
    }
  }

  /**
   * `handle_sentence_unk`: as `HandleSentence`, but before window `index` is
   * counted, `words[index]` is overwritten with `<UNK>` when it is an unknown
   * token. Only the first position of each window has been rewritten by then.
   * With `n == 0` the last iteration would index past the word list, so the
   * window width is at least one.
   */
  method HandleSentenceUnk(text: string, n: nat, counts: Counter, unknownTokens: set<string>)
    requires n >= 1
    modifies counts
    ensures IsBlank(text) ==> counts.table == old(counts.table)
    ensures !IsBlank(text) ==>
      counts.table == AddAll(old(counts.table), UnkWindowKeys(Padded(Split(text), n), n, unknownTokens))
  {
    if !IsBlank(text) {
      var padded := RepeatString("<s> ", n) + text + " </s>";
      var words := Split(padded);
      SplitPadded(text, n);
      ghost var original := words;
      ghost var keys := UnkWindowKeys(original, n, unknownTokens);
      var index := 0;
      while index < |words| - n + 1
        invariant 0 <= index <= WindowCount(original, n) <= |original|
        invariant words == RewrittenBefore(original, unknownTokens, index)
        invariant counts.table == AddAll(old(counts.table), keys[..index])
      {
        RewriteStep(original, unknownTokens, index);
        if words[index] in unknownTokens {
          words := words[index := UnknownMarker];
        }
        var nGram := if n == 1 then words[index] else Join(words[index..index + n]);
        UnkKeyAt(original, n, unknownTokens, index, words);
        AddAllPrefixStep(old(counts.table), keys, index);
        counts.Increment(nGram);
        index := index + 1;
      }
      assert keys[..index] == keys;
    }
  }

  // ---------------------------------------------------------------------------
  // What the counting promises

  /** The padded word list has `n` start markers first and the end marker last; all its words are tokens. */
  lemma PaddedShape(content: seq<string>, n: nat)
    requires AllTokens(content)
    ensures |Padded(content, n)| == n + |content| + 1
    ensures forall i :: 0 <= i < n ==> Padded(content, n)[i] == StartMarker
    ensures Padded(content, n)[n..n + |content|] == content
    ensures Padded(content, n)[n + |content|] == EndMarker
    ensures AllTokens(Padded(content, n))
  {
  }

  /** A sentence of `k` words makes `k + 2` increments, whatever `n` is. */
  lemma PaddedWindowCount(content: seq<string>, n: nat, unknown: set<string>)
    ensures |WindowKeys(Padded(content, n), n)| == |content| + 2
    ensures |UnkWindowKeys(Padded(content, n), n, unknown)| == |content| + 2
  {
  }

  /** The total of all counts grows by `k + 2` for a sentence of `k` words. */
  lemma SentenceTotal(m: map<string, nat>, content: seq<string>, n: nat, unknown: set<string>)
    ensures Total(AddAll(m, WindowKeys(Padded(content, n), n))) == Total(m) + |content| + 2
    ensures Total(AddAll(m, UnkWindowKeys(Padded(content, n), n, unknown))) == Total(m) + |content| + 2
  {
    AddAllTotal(m, WindowKeys(Padded(content, n), n));
    AddAllTotal(m, UnkWindowKeys(Padded(content, n), n, unknown));
  }

  /** Splitting a window's key gives back exactly the window's words. */
  lemma WindowKeySplit(words: seq<string>, n: nat, i: nat)
    requires AllTokens(words) && i < WindowCount(words, n)
    ensures Split(WindowKeys(words, n)[i]) == words[i..i + n]
  {
    SplitJoin(words[i..i + n]);
  }

  /** The first window is all start markers and the last ends with the end marker. */
  lemma FirstAndLastWindow(content: seq<string>, n: nat)
    requires AllTokens(content) && n >= 1
    ensures Split(WindowKeys(Padded(content, n), n)[0]) == Repeat(StartMarker, n)
    ensures var keys := WindowKeys(Padded(content, n), n);
      var last := Split(keys[|keys| - 1]);
      |last| == n && last[n - 1] == EndMarker
  {
    var words := Padded(content, n);
    PaddedShape(content, n);
    WindowKeySplit(words, n, 0);
    assert words[0..n] == Repeat(StartMarker, n);
    WindowKeySplit(words, n, |content| + 1);
  }

  /**
   * In every key `handle_sentence_unk` counts, the first word is not an
   * unknown token (provided `<UNK>` itself is not one) and every later word
   * is the word as read.
   */
  lemma UnkWindowWords(words: seq<string>, n: nat, unknown: set<string>, i: nat)
    requires AllTokens(words) && i < WindowCount(words, n) && n >= 1
    requires UnknownMarker !in unknown
    ensures var key := Split(UnkWindowKeys(words, n, unknown)[i]);
      && |key| == n
      && key[0] !in unknown
      && key[0] == (if words[i] in unknown then UnknownMarker else words[i])
      && forall j :: 1 <= j < n ==> key[j] == words[i + j]
  {
    var rewritten := RewrittenBefore(words, unknown, i + 1);
    assert AllTokens(rewritten) by {
      SplitToken(UnknownMarker);
    }
    SplitJoin(rewritten[i..i + n]);
  }

  /** For unigrams no counted key is an unknown token. */
  lemma UnkUnigramsKnown(words: seq<string>, unknown: set<string>, i: nat)
    requires AllTokens(words) && i < WindowCount(words, 1)
    requires UnknownMarker !in unknown
    ensures UnkWindowKeys(words, 1, unknown)[i] !in unknown
  {
    UnkWindowWords(words, 1, unknown, i);
    SplitToken(UnkWindowKeys(words, 1, unknown)[i]);
  }

  /** With no unknown tokens `handle_sentence_unk` counts exactly what `handle_sentence` counts. */
  lemma UnkWithoutUnknownsIsPlain(words: seq<string>, n: nat)
    ensures UnkWindowKeys(words, n, {}) == WindowKeys(words, n)
  {
    forall i | 0 <= i < WindowCount(words, n)
      ensures UnkWindowKeys(words, n, {})[i] == WindowKeys(words, n)[i]
    {
      assert RewrittenBefore(words, {}, i + 1) == words;
    }
  }
}
