/**
 * The username censor: every blocked word is replaced, ignoring ASCII case,
 * by as many `*` as it has characters. A blocked word is matched as
 * literal text.
 */
module Censor {

  /** ASCII lower case, as the "C" locale folds case. */
  function Lower(c: char): (r: char)
    ensures 'A' <= c <= 'Z' ==> r as int == c as int + 32
    ensures !('A' <= c <= 'Z') ==> r == c
  {
    if 'A' <= c <= 'Z' then (c as int + 32) as char else c
  }

  /** `w` occurs at `p` in `s`, ignoring case. */
  predicate MatchesAt(s: string, w: string, p: nat)
  {
    p + |w| <= |s| && forall k :: 0 <= k < |w| ==> Lower(s[p + k]) == Lower(w[k])
  }

  function Stars(n: nat): (r: string)
    ensures |r| == n && forall k :: 0 <= k < n ==> r[k] == '*'
  {
    if n == 0 then "" else Stars(n - 1) + "*"
  }

  /** The replacement from `p` on: the leftmost match is starred and the scan resumes after it. */
  function ReplaceFrom(s: string, w: string, p: nat): (r: string)
    requires |w| > 0 && p <= |s|
    decreases |s| - p
  {
    if p == |s| then ""
    else if MatchesAt(s, w, p) then Stars(|w|) + ReplaceFrom(s, w, p + |w|)
    else [s[p]] + ReplaceFrom(s, w, p + 1)
  }

  /** One `regex_replace` of a blocked word; an empty word matches only empty text and changes nothing. */
  function ReplaceWord(s: string, w: string): string
  {
    if |w| == 0 then s else ReplaceFrom(s, w, 0)
  }

  /** The characters of `r` are those of `s`, some turned into `*`. */
  predicate OnlyStarred(s: string, r: string)
  {
    |r| == |s| && forall k :: 0 <= k < |s| ==> r[k] == s[k] || r[k] == '*'
  }

  ghost predicate NoMatch(s: string, w: string)
  {
    forall q: nat :: !MatchesAt(s, w, q)
  }

  predicate StarFree(w: string)
  {
    forall k :: 0 <= k < |w| ==> w[k] != '*'
  }

  /** The replacement keeps the length and only ever writes stars over the text. */
  lemma {:induction false} ReplaceFromStars(s: string, w: string, p: nat)
    requires |w| > 0 && p <= |s|
    ensures OnlyStarred(s[p..], ReplaceFrom(s, w, p))
    decreases |s| - p
  {
    if p < |s| {
      var r := ReplaceFrom(s, w, p);
      if MatchesAt(s, w, p) {
        ReplaceFromStars(s, w, p + |w|);
        var tail := ReplaceFrom(s, w, p + |w|);
        assert r == Stars(|w|) + tail;
        forall k | 0 <= k < |s| - p
          ensures r[k] == s[p..][k] || r[k] == '*'
        {
          if k >= |w| {
            assert r[k] == tail[k - |w|];
            assert s[p + |w|..][k - |w|] == s[p..][k];
          }
        }
      } else {
        ReplaceFromStars(s, w, p + 1);
        var tail := ReplaceFrom(s, w, p + 1);
        forall k | 0 <= k < |s| - p
          ensures r[k] == s[p..][k] || r[k] == '*'
        {
          if k >= 1 {
            assert r[k] == tail[k - 1];
            assert s[p + 1..][k - 1] == s[p..][k];
          }
        }
      }
    }
  }

  lemma ReplaceWordStars(s: string, w: string)
    ensures OnlyStarred(s, ReplaceWord(s, w))
  {
    if |w| > 0 {
      ReplaceFromStars(s, w, 0);
      assert s[0..] == s;
    }
  }

  /** No match of a star-free word starts on a star. */
  lemma StarredNoMatch(r: string, w: string, q: nat)
    requires |w| > 0 && StarFree(w) && q < |r| && r[q] == '*'
    ensures !MatchesAt(r, w, q)
  {
    assert w[0] != '*';
    assert Lower(r[q]) != Lower(w[0]);
  }

  /** A mismatch in `r[d..]` is a mismatch in `r`. */
  lemma ShiftNoMatch(r: string, w: string, d: nat, q: nat)
    requires d <= q && d <= |r| && !MatchesAt(r[d..], w, q - d)
    ensures !MatchesAt(r, w, q)
  {
    var tail := r[d..];
    if q + |w| <= |r| {
      var k :| 0 <= k < |w| && Lower(tail[q - d + k]) != Lower(w[k]);
      assert r[q + k] == tail[q - d + k];
    }
  }

  /** Where `s` has no match, a copy of it with some characters starred has none either. */
  lemma StarredCopyNoMatch(s: string, r: string, w: string, q: nat)
    requires OnlyStarred(s, r) && StarFree(w) && !MatchesAt(s, w, q)
    ensures !MatchesAt(r, w, q)
  {
    if q + |w| <= |r| {
      var k :| 0 <= k < |w| && Lower(s[q + k]) != Lower(w[k]);
      assert w[k] != '*';
      assert Lower(r[q + k]) != Lower(w[k]);
    }
  }

  /**
   * After `ReplaceFrom(s, w, p)` no match of a star-free word starts in the
   * replaced text.
   */
  lemma {:induction false} ReplaceFromNoMatch(s: string, w: string, p: nat, q: nat)
    requires |w| > 0 && StarFree(w) && p <= |s|
    ensures !MatchesAt(ReplaceFrom(s, w, p), w, q)
    decreases |s| - p
  {
    if p < |s| {
      if MatchesAt(s, w, p) {
        if q >= |w| {
          ReplaceFromNoMatch(s, w, p + |w|, q - |w|);
        }
        NoMatchAfterStars(s, w, p, q);
      } else {
        if q > 0 {
          ReplaceFromNoMatch(s, w, p + 1, q - 1);
        }
        NoMatchAfterCopy(s, w, p, q);
      }
    }
  }

  /** Where the word matched, the stars start no match and the rest is the replaced tail. */
  lemma NoMatchAfterStars(s: string, w: string, p: nat, q: nat)
    requires |w| > 0 && StarFree(w) && p < |s| && MatchesAt(s, w, p)
    requires q >= |w| ==> !MatchesAt(ReplaceFrom(s, w, p + |w|), w, q - |w|)
    ensures !MatchesAt(ReplaceFrom(s, w, p), w, q)
  {
    var r := ReplaceFrom(s, w, p);
    var tail := ReplaceFrom(s, w, p + |w|);
    assert r == Stars(|w|) + tail;
    if q < |w| {
      StarredNoMatch(r, w, q);
    } else {
      assert r[|w|..] == tail;
      ShiftNoMatch(r, w, |w|, q);
    }
  }

  /** Where the word did not match, the copied character starts no match and the rest is the replaced tail. */
  lemma NoMatchAfterCopy(s: string, w: string, p: nat, q: nat)
    requires |w| > 0 && StarFree(w) && p < |s| && !MatchesAt(s, w, p)
    requires q > 0 ==> !MatchesAt(ReplaceFrom(s, w, p + 1), w, q - 1)
    ensures !MatchesAt(ReplaceFrom(s, w, p), w, q)
  {
    var r := ReplaceFrom(s, w, p);
    var tail := ReplaceFrom(s, w, p + 1);
    assert r == [s[p]] + tail;
    if q == 0 {
      ReplaceFromStars(s, w, p);
      ShiftNoMatchBack(s, w, p);
      StarredCopyNoMatch(s[p..], r, w, 0);
    } else {
      assert r[1..] == tail;
      ShiftNoMatch(r, w, 1, q);
    }
  }

  /** A mismatch at `p` in `s` is a mismatch at the start of `s[p..]`. */
  lemma ShiftNoMatchBack(s: string, w: string, p: nat)
    requires p <= |s| && !MatchesAt(s, w, p)
    ensures !MatchesAt(s[p..], w, 0)
  {
    if |w| <= |s| - p {
      var k :| 0 <= k < |w| && Lower(s[p + k]) != Lower(w[k]);
      assert s[p..][k] == s[p + k];
    }
  }

  /** A star-free blocked word no longer occurs once it has been replaced. */
  lemma ReplaceWordRemoves(s: string, w: string)
    requires |w| > 0 && StarFree(w)
    ensures NoMatch(ReplaceWord(s, w), w)
  {
    forall q: nat
      ensures !MatchesAt(ReplaceWord(s, w), w, q)
    {
      ReplaceFromNoMatch(s, w, 0, q);
    }
  }

  /** Starring more characters cannot bring back a star-free word. */
  lemma StarringKeepsNoMatch(s: string, r: string, w: string)
    requires OnlyStarred(s, r) && StarFree(w) && NoMatch(s, w)
    ensures NoMatch(r, w)
  {
    forall q: nat
      ensures !MatchesAt(r, w, q)
    {
      StarredCopyNoMatch(s, r, w, q);
    }
  }

  /** Text with no match is left as it is. */
  lemma {:induction false} ReplaceFromNoMatchUnchanged(s: string, w: string, p: nat)
    requires |w| > 0 && p <= |s| && NoMatch(s, w)
    ensures ReplaceFrom(s, w, p) == s[p..]
    decreases |s| - p
  {
    if p < |s| {
      assert !MatchesAt(s, w, p);
      ReplaceFromNoMatchUnchanged(s, w, p + 1);
      assert s[p..] == [s[p]] + s[p + 1..];
    }
  }

  /** Censoring with the same star-free word twice is censoring once. */
  lemma ReplaceWordIdempotent(s: string, w: string)
    requires StarFree(w)
    ensures ReplaceWord(ReplaceWord(s, w), w) == ReplaceWord(s, w)
  {
    if |w| > 0 {
      var r := ReplaceWord(s, w);
      ReplaceWordRemoves(s, w);
      ReplaceFromNoMatchUnchanged(r, w, 0);
      assert r[0..] == r;
    }
  }

  /** The blocked words applied one after the other, in their order in the list. */
  function CensorAll(text: string, words: seq<string>): string
    decreases |words|
  {
    if words == [] then text
    else ReplaceWord(CensorAll(text, words[..|words| - 1]), words[|words| - 1])
  }

  /** `censor_text`: the loop over the blocked words. */
  method CensorText(text: string, words: seq<string>) returns (result: string)
    ensures result == CensorAll(text, words)
  {
    result := text;
    var i := 0;
    while i < |words|
      invariant 0 <= i <= |words|
      invariant result == CensorAll(text, words[..i])
    {
      assert words[..i + 1][..i] == words[..i];
      result := ReplaceWord(result, words[i]);
      i := i + 1;
    }
    assert words[..|words|] == words;
  }

  /** The censored name has the length of the name, and differs only by stars. */
  lemma {:induction false} CensorAllStars(text: string, words: seq<string>)
    ensures OnlyStarred(text, CensorAll(text, words))
    decreases |words|
  {
    if words != [] {
      var before := CensorAll(text, words[..|words| - 1]);
      CensorAllStars(text, words[..|words| - 1]);
      ReplaceWordStars(before, words[|words| - 1]);
    }
  }

  /** No non-empty star-free blocked word is left in the censored name. */
  lemma {:induction false} CensorAllRemoves(text: string, words: seq<string>, i: nat)
    requires i < |words| && |words[i]| > 0
    requires forall j :: 0 <= j < |words| ==> StarFree(words[j])
    ensures NoMatch(CensorAll(text, words), words[i])
    decreases |words|
  {
    var last := |words| - 1;
    var before := CensorAll(text, words[..last]);
    if i == last {
      ReplaceWordRemoves(before, words[i]);
    } else {
      assert words[..last][i] == words[i];
      CensorAllRemoves(text, words[..last], i);
      ReplaceWordStars(before, words[last]);
      StarringKeepsNoMatch(before, CensorAll(text, words), words[i]);
    }
  }

  /** A concrete name: `Badger` with blocked word `bad` becomes `***ger`. */
  lemma CensorExample()
    ensures CensorAll("Badger", ["bad"]) == "***ger"
  {
    var s := "Badger";
    var w := "bad";
    assert MatchesAt(s, w, 0);
    assert ReplaceFrom(s, w, 3) == "ger" by {
      assert Lower(s[3]) != Lower(w[0]);
      assert ReplaceFrom(s, w, 6) == "";
      assert ReplaceFrom(s, w, 5) == "r";
      assert ReplaceFrom(s, w, 4) == "er";
    }
    assert Stars(3) == "***";
    assert ["bad"][..0] == [];
  }
}
