/**
 * The older revision of `handle_sentence`: the only start marker is the
 * `"<s> "` that `retrieve_text` puts in front of the sentence, and the end
 * marker is appended before the emptiness guard, so that guard never fails.
 */
module FrequencyCountsPart1 {
  import opened Text
  import opened Tables
  import FrequencyCounts

  /** What this revision's `retrieve_text` always starts its result with. */
  const RetrievedPrefix := "<s> "

  /** The word list of a sentence with content words `content`: one start marker, the words, one end marker. */
  function Part1Words(content: seq<string>): seq<string> {
    [FrequencyCounts.StartMarker] + content + [FrequencyCounts.EndMarker]
  }

  lemma SplitRetrieved(body: string)
    ensures Split(RetrievedPrefix + body + " </s>") == Part1Words(Split(body))
  {
    assert RetrievedPrefix + body + " </s>" == FrequencyCounts.StartMarker + " " + (body + " " + FrequencyCounts.EndMarker);
    SplitAppend(FrequencyCounts.StartMarker, body + " " + FrequencyCounts.EndMarker);
    SplitAppend(body, FrequencyCounts.EndMarker);
    SplitToken(FrequencyCounts.StartMarker);
    SplitToken(FrequencyCounts.EndMarker);
  }

  /**
   * `handle_sentence` of this revision. `body` is what `retrieve_text`
   * concatenates after its `"<s> "` prefix. The guard compares the text
   * against `"<s> "` after `" </s>"` was appended, so every sentence is
   * counted, an empty one as `<s> </s>`.
   */
  method HandleSentence(body: string, n: nat, counts: FrequencyCounts.Counter)
    modifies counts
    ensures counts.table
      == AddAll(old(counts.table), FrequencyCounts.WindowKeys(Part1Words(Split(body)), n))
  {
    var text := RetrievedPrefix + body + " </s>";
    if text != "<s> " {
      var words := Split(text);
      SplitRetrieved(body);
      var index := 0;
      while index < |words| - n + 1
        invariant 0 <= index <= FrequencyCounts.WindowCount(words, n)
        invariant counts.table == AddAll(old(counts.table), FrequencyCounts.WindowKeys(words, n)[..index])
      {
        var nGram := if n == 1 then words[index] else Join(words[index..index + n]);
        FrequencyCounts.WindowKeyAt(words, n, index);
        AddAllPrefixStep(old(counts.table), FrequencyCounts.WindowKeys(words, n), index);
        counts.Increment(nGram);
        index := index + 1;
      }
      assert FrequencyCounts.WindowKeys(words, n)[..index] == FrequencyCounts.WindowKeys(words, n);
    }
  }

  /**
   * A sentence of `k` words gives `k + 2` words, so `k + 3 - n` increments
   * when that is not negative and none otherwise; the total grows by as much.
   */
  lemma Part1Increments(m: map<string, nat>, content: seq<string>, n: nat)
    ensures |FrequencyCounts.WindowKeys(Part1Words(content), n)|
      == if |content| + 3 >= n then |content| + 3 - n else 0
    ensures Total(AddAll(m, FrequencyCounts.WindowKeys(Part1Words(content), n)))
      == Total(m) + |FrequencyCounts.WindowKeys(Part1Words(content), n)|
  {
    AddAllTotal(m, FrequencyCounts.WindowKeys(Part1Words(content), n));
  }

  /** Exactly one start marker precedes the content, whatever `n` is; each key splits back into its window. */
  lemma Part1Windows(content: seq<string>, n: nat, i: nat)
    requires AllTokens(content)
    requires i < FrequencyCounts.WindowCount(Part1Words(content), n)
    ensures Part1Words(content)[0] == FrequencyCounts.StartMarker
    ensures Part1Words(content)[1..|content| + 1] == content
    ensures Split(FrequencyCounts.WindowKeys(Part1Words(content), n)[i]) == Part1Words(content)[i..i + n]
  {
    var words := Part1Words(content);
    assert AllTokens(words) by {
      SplitToken(FrequencyCounts.StartMarker);
      SplitToken(FrequencyCounts.EndMarker);
    }
    FrequencyCounts.WindowKeySplit(words, n, i);
  }
}
