/**
 * Strings as the language models see them: Python's whitespace `split()`,
 * `" ".join(...)`, the punctuation filter `_remove_punctuation` and an ASCII
 * `lower()`.
 */
module Text {

  /** The characters Python's `str.split()` and `str.strip()` treat as whitespace. */
  predicate IsSpace(c: char) {
    || c == ' ' || c == '\t' || c == '\n' || c == '\r'
    || c == '\U{000B}' || c == '\U{000C}'
    || c == '\U{001C}' || c == '\U{001D}' || c == '\U{001E}' || c == '\U{001F}'
    || c == '\U{0085}' || c == '\U{00A0}' || c == '\U{1680}'
    || ('\U{2000}' <= c <= '\U{200A}')
    || c == '\U{2028}' || c == '\U{2029}' || c == '\U{202F}' || c == '\U{205F}' || c == '\U{3000}'
  }

  /** No character of `s` is whitespace. */
  predicate NoSpace(s: string) {
    forall i :: 0 <= i < |s| ==> !IsSpace(s[i])
  }

  /** A token: what `split()` can return, a non-empty run of non-whitespace characters. */
  predicate IsToken(s: string) {
    s != "" && NoSpace(s)
  }

  predicate AllTokens(ws: seq<string>) {
    forall i :: 0 <= i < |ws| ==> IsToken(ws[i])
  }

  /** Every character is whitespace: `s.strip() == ""`. */
  predicate IsBlank(s: string) {
    forall i :: 0 <= i < |s| ==> IsSpace(s[i])
  }

  function Flush(word: string): seq<string> {
    if word == "" then [] else [word]
  }

  /**
   * Scans `s` left to right; `word` is the part of the current word already
   * read. Whitespace ends the current word.
   */
  function SplitFrom(s: string, word: string): (r: seq<string>)
    requires NoSpace(word)
    ensures AllTokens(r)
    decreases |s|
  {
    if s == [] then Flush(word)
    else if IsSpace(s[0]) then Flush(word) + SplitFrom(s[1..], "")
    else SplitFrom(s[1..], word + [s[0]])
  }

  /** `s.split()`: the maximal runs of non-whitespace characters, in order. */
  function Split(s: string): (r: seq<string>)
    ensures AllTokens(r)
  {
    SplitFrom(s, "")
  }

  /** `" ".join(ws)`. */
  function Join(ws: seq<string>): string {
    if ws == [] then ""
    else if |ws| == 1 then ws[0]
    else ws[0] + " " + Join(ws[1..])
  }

  /** `s * n` for a string `s`. */
  function RepeatString(s: string, n: nat): (r: string)
    ensures |r| == |s| * n
  {
    if n == 0 then "" else s + RepeatString(s, n - 1)
  }

  lemma {:induction false} SplitFromSpaceAppend(a: string, word: string, b: string)
    requires NoSpace(word)
    ensures SplitFrom(a + " " + b, word) == SplitFrom(a, word) + Split(b)
    decreases |a|
  {
    if a == [] {
      assert a + " " + b == [' '] + b;
      assert (a + " " + b)[1..] == b;
    } else {
      assert (a + " " + b)[0] == a[0];
      assert (a + " " + b)[1..] == a[1..] + " " + b;
      if IsSpace(a[0]) {
        SplitFromSpaceAppend(a[1..], "", b);
      } else {
        SplitFromSpaceAppend(a[1..], word + [a[0]], b);
      }
    }
  }

  /** A space between two strings separates their words: `(a + " " + b).split() == a.split() + b.split()`. */
  lemma SplitAppend(a: string, b: string)
    ensures Split(a + " " + b) == Split(a) + Split(b)
  {
    SplitFromSpaceAppend(a, "", b);
  }

  lemma {:induction false} SplitFromWord(w: string, word: string)
    requires NoSpace(word) && NoSpace(w)
    ensures NoSpace(word + w)
    ensures SplitFrom(w, word) == Flush(word + w)
    decreases |w|
  {
    if w == [] {
      assert word + w == word;
    } else {
      assert word + w == (word + [w[0]]) + w[1..];
      SplitFromWord(w[1..], word + [w[0]]);
    }
  }

  /** Splitting a token gives back just that token. */
  lemma SplitToken(w: string)
    requires IsToken(w)
    ensures Split(w) == [w]
  {
    SplitFromWord(w, "");
    assert "" + w == w;
  }

  /** Whitespace-splitting undoes the space-join of tokens: `" ".join(ws).split() == ws`. */
  lemma {:induction false} SplitJoin(ws: seq<string>)
    requires AllTokens(ws)
    ensures Split(Join(ws)) == ws
    decreases |ws|
  {
    if ws == [] {
    } else if |ws| == 1 {
      SplitToken(ws[0]);
    } else {
      SplitAppend(ws[0], Join(ws[1..]));
      SplitToken(ws[0]);
      SplitJoin(ws[1..]);
      assert ws == [ws[0]] + ws[1..];
    }
  }

  lemma {:induction false} SplitFromEmpty(s: string, word: string)
    requires NoSpace(word)
    ensures SplitFrom(s, word) == [] <==> word == "" && IsBlank(s)
    decreases |s|
  {
    if s != [] {
      if IsSpace(s[0]) {
        SplitFromEmpty(s[1..], "");
        if IsBlank(s[1..]) {
          assert forall i :: 1 <= i < |s| ==> s[i] == s[1..][i - 1];
        }
      } else {
        SplitFromEmpty(s[1..], word + [s[0]]);
      }
    }
  }

  /** `s.split()` is empty exactly when `s.strip()` is empty. */
  lemma SplitEmptyIffBlank(s: string)
    ensures Split(s) == [] <==> IsBlank(s)
  {
    SplitFromEmpty(s, "");
  }

  // ---------------------------------------------------------------------------
  // Punctuation and case

  /** `string.punctuation` without the apostrophe: the 31 characters `_remove_punctuation` deletes. */
  const Punctuation: set<char> := {
    '!', '"', '#', '$', '%', '&', '(', ')', '*', '+', ',', '-', '.', '/',
    ':', ';', '<', '=', '>', '?', '@', '[', '\\', ']', '^', '_', '`',
    '{', '|', '}', '~' }

  /** `text.translate(str.maketrans("", "", punctuation))`. */
  function RemovePunctuation(s: string): (r: string)
    ensures |r| <= |s|
    ensures forall i :: 0 <= i < |r| ==> r[i] !in Punctuation
  {
    if s == [] then ""
    else if s[0] in Punctuation then RemovePunctuation(s[1..])
    else [s[0]] + RemovePunctuation(s[1..])
  }

  /** The filter works character by character: it distributes over concatenation. */
  lemma {:induction false} RemovePunctuationAppend(a: string, b: string)
    ensures RemovePunctuation(a + b) == RemovePunctuation(a) + RemovePunctuation(b)
    decreases |a|
  {
    if a != [] {
      assert (a + b)[0] == a[0];
      assert (a + b)[1..] == a[1..] + b;
      RemovePunctuationAppend(a[1..], b);
    } else {
      assert a + b == b;
    }
  }

  /** Every character outside the punctuation set survives, every one inside is deleted. */
  lemma {:induction false} RemovePunctuationCounts(s: string, c: char)
    ensures multiset(RemovePunctuation(s))[c] == if c in Punctuation then 0 else multiset(s)[c]
    decreases |s|
  {
    if s != [] {
      RemovePunctuationCounts(s[1..], c);
      assert s == [s[0]] + s[1..];
    }
  }

  /** A string without punctuation is left as it is. */
  lemma {:induction false} RemovePunctuationKeeps(s: string)
    requires forall i :: 0 <= i < |s| ==> s[i] !in Punctuation
    ensures RemovePunctuation(s) == s
    decreases |s|
  {
    if s != [] {
      RemovePunctuationKeeps(s[1..]);
    }
  }

  /** `_remove_punctuation` is idempotent. */
  lemma RemovePunctuationIdempotent(s: string)
    ensures RemovePunctuation(RemovePunctuation(s)) == RemovePunctuation(s)
  {
    RemovePunctuationKeeps(RemovePunctuation(s));
  }

  /** `str.lower()` on one character; only ASCII letters are changed here. */
  function LowerChar(c: char): char {
    if 'A' <= c <= 'Z' then (c as int - 'A' as int + 'a' as int) as char else c
  }

  function Lower(s: string): (r: string)
    ensures |r| == |s|
    ensures forall i :: 0 <= i < |s| ==> r[i] == LowerChar(s[i])
  {
    if s == [] then "" else [LowerChar(s[0])] + Lower(s[1..])
  }

  /** Lower-casing neither creates nor removes whitespace or punctuation. */
  lemma LowerKeepsClasses(c: char)
    ensures IsSpace(LowerChar(c)) == IsSpace(c)
    ensures (LowerChar(c) in Punctuation) == (c in Punctuation)
  {
  }

  /** Lower-casing leaves a blank string blank and a non-blank one non-blank. */
  lemma LowerKeepsBlank(s: string)
    ensures IsBlank(Lower(s)) == IsBlank(s)
  {
    forall i | 0 <= i < |s|
      ensures IsSpace(Lower(s)[i]) == IsSpace(s[i])
    {
      LowerKeepsClasses(s[i]);
    }
  }
}
