/** Character-sequence utilities shared by the parser and the chat input:
    whitespace stripping over a caller-chosen whitespace class, ASCII
    lower-casing and substring search. */
module Text {

  /** Index of the first character at or after lo that is not whitespace
      (|s| when there is none). */
  function SkipSpaces(s: string, isSpace: char -> bool, lo: nat): (r: nat)
    requires lo <= |s|
    ensures lo <= r <= |s|
    ensures forall i :: lo <= i < r ==> isSpace(s[i])
    ensures r < |s| ==> !isSpace(s[r])
    decreases |s| - lo
  {
    if lo < |s| && isSpace(s[lo]) then SkipSpaces(s, isSpace, lo + 1) else lo
  }

  /** Index just past the last character before hi, and not before lo, that
      is not whitespace (lo when there is none). */
  function SkipSpacesBack(s: string, isSpace: char -> bool, lo: nat, hi: nat): (r: nat)
    requires lo <= hi <= |s|
    ensures lo <= r <= hi
    ensures forall i :: r <= i < hi ==> isSpace(s[i])
    ensures r > lo ==> !isSpace(s[r - 1])
    decreases hi
  {
    if hi > lo && isSpace(s[hi - 1]) then SkipSpacesBack(s, isSpace, lo, hi - 1) else hi
  }

  /** Number of whitespace characters that Strip drops at the front. */
  function LeadingSpaces(s: string, isSpace: char -> bool): (n: nat)
    ensures n <= |s|
  {
    SkipSpaces(s, isSpace, 0)
  }

  /** Strips whitespace at both ends: the result is a slice of s that
      neither starts nor ends with whitespace, and everything outside the
      slice is whitespace. */
  function Strip(s: string, isSpace: char -> bool): (r: string)
    ensures LeadingSpaces(s, isSpace) + |r| <= |s|
    ensures r == s[LeadingSpaces(s, isSpace)..LeadingSpaces(s, isSpace) + |r|]
    ensures forall i :: 0 <= i < LeadingSpaces(s, isSpace) ==> isSpace(s[i])
    ensures forall i :: LeadingSpaces(s, isSpace) + |r| <= i < |s| ==> isSpace(s[i])
    ensures r == [] || (!isSpace(r[0]) && !isSpace(r[|r| - 1]))
    ensures r == [] <==> forall i :: 0 <= i < |s| ==> isSpace(s[i])
  {
    var lo := SkipSpaces(s, isSpace, 0);
    var hi := SkipSpacesBack(s, isSpace, lo, |s|);
    assert lo < hi ==> s[lo..hi][0] == s[lo] && s[lo..hi][hi - lo - 1] == s[hi - 1];
    s[lo..hi]
  }

  /** r is s with its leading and trailing whitespace cut away: the slice of
      s after the leading whitespace, with only whitespace after it. */
  predicate StrippedSlice(s: string, isSpace: char -> bool, r: string)
  {
    var lo := LeadingSpaces(s, isSpace);
    && lo + |r| <= |s| && r == s[lo..lo + |r|]
    && (forall i :: 0 <= i < lo ==> isSpace(s[i]))
    && (forall i :: lo + |r| <= i < |s| ==> isSpace(s[i]))
  }

  /** Strip's result is the stripped slice. */
  lemma StripIsStrippedSlice(s: string, isSpace: char -> bool)
    ensures StrippedSlice(s, isSpace, Strip(s, isSpace))
  {
  }

  /** ASCII lower-casing of one character; every other character is kept. */
  function LowerChar(c: char): (r: char)
    ensures !('A' <= r <= 'Z')
    ensures 'a' <= c <= 'z' || !('A' <= c <= 'Z') ==> r == c
    ensures 'A' <= c <= 'Z' ==> 'a' <= r <= 'z' && r as int - c as int == 32
  {
    if 'A' <= c <= 'Z' then (c as int + 32) as char else c
  }

  /** ASCII lower-casing of a whole text. */
  function Lower(s: string): (r: string)
    ensures |r| == |s|
    ensures forall i :: 0 <= i < |s| ==> r[i] == LowerChar(s[i])
    ensures forall i :: 0 <= i < |r| ==> !('A' <= r[i] <= 'Z')
  {
    seq(|s|, i requires 0 <= i < |s| => LowerChar(s[i]))
  }

  /** Lower-casing twice is lower-casing once. */
  lemma LowerIdempotent(s: string)
    ensures Lower(Lower(s)) == Lower(s)
  {
  }

  /** A text without upper-case ASCII letters is its own lower-casing. */
  lemma LowerOfLowercase(s: string)
    requires forall i :: 0 <= i < |s| ==> !('A' <= s[i] <= 'Z')
    ensures Lower(s) == s
  {
  }

  /** Stripping a lower-cased text leaves it lower-cased. */
  lemma StripOfLowercase(s: string, isSpace: char -> bool)
    ensures Lower(Strip(Lower(s), isSpace)) == Strip(Lower(s), isSpace)
  {
  }

  /** `word in text` for Python strings: word occurs as a contiguous slice. */
  predicate Contains(text: string, word: string)
    decreases |text|
  {
    word <= text || (|text| > 0 && Contains(text[1..], word))
  }

  /** Contains means: some suffix of text starts with word. */
  lemma {:induction false} ContainsAt(text: string, word: string)
    ensures Contains(text, word) <==> exists i :: 0 <= i <= |text| && word <= text[i..]
    decreases |text|
  {
    if word <= text {
      assert word <= text[0..];
    } else if |text| > 0 {
      ContainsAt(text[1..], word);
      forall i | 1 <= i <= |text|
        ensures text[i..] == text[1..][i - 1..]
      {
      }
      if exists i :: 0 <= i <= |text| && word <= text[i..] {
        var i :| 0 <= i <= |text| && word <= text[i..];
        assert i != 0;
        assert word <= text[1..][i - 1..];
      }
    } else {
      assert forall i :: 0 <= i <= |text| ==> text[i..] == text;
    }
  }

  /** The stripped text occurs in the original. */
  lemma StripIsContained(s: string, isSpace: char -> bool)
    ensures Contains(s, Strip(s, isSpace))
  {
    var r := Strip(s, isSpace);
    var lo := LeadingSpaces(s, isSpace);
    assert r <= s[lo..];
    ContainsAt(s, r);
  }

  /** A text that contains a word contains every prefix of that word. */
  lemma {:induction false} ContainsPrefix(text: string, word: string, prefix: string)
    requires prefix <= word
    requires Contains(text, word)
    ensures Contains(text, prefix)
    decreases |text|
  {
    if word <= text {
      assert prefix <= text;
    } else {
      ContainsPrefix(text[1..], word, prefix);
    }
  }

  /** Python's `any(w in text for w in words)`. */
  function AnyContains(text: string, words: seq<string>): (r: bool)
    ensures r <==> exists i :: 0 <= i < |words| && Contains(text, words[i])
  {
    if |words| == 0 then false
    else Contains(text, words[0]) || AnyContains(text, words[1..])
  }
}
