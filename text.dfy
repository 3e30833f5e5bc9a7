/**
 * String primitives the server leans on: `std::string::find`, `isdigit`,
 * the decimal conversions done by `std::stoi` and by `operator<<` on an `int`,
 * and the comma-separated lists that every serialiser writes.
 */
module Text {
  import opened Wrappers

  /** `pat` occurs in `s` starting at position `p`. */
  predicate MatchAt(s: string, pat: string, p: nat)
  {
    p + |pat| <= |s| && s[p..p + |pat|] == pat
  }

  /**
   * `s.find(pat, from)`: the first position at or after `from` where `pat`
   * occurs, or `None` for `npos`.
   */
  function Find(s: string, pat: string, from: nat): (r: Option<nat>)
    ensures r.Some? ==> from <= r.value && MatchAt(s, pat, r.value)
    ensures r.Some? ==> forall p :: from <= p < r.value ==> !MatchAt(s, pat, p)
    ensures r.None? ==> forall p :: from <= p ==> !MatchAt(s, pat, p)
    decreases |s| - from
  {
    if from + |pat| > |s| then None
    else if s[from..from + |pat|] == pat then Some(from)
    else Find(s, pat, from + 1)
  }

  /** A match with no earlier match at or after `from` is what `Find` returns. */
  lemma {:induction false} FindFirstMatch(s: string, pat: string, from: nat, k: nat)
    requires from <= k && MatchAt(s, pat, k)
    requires forall p :: from <= p < k ==> !MatchAt(s, pat, p)
    ensures Find(s, pat, from) == Some(k)
    decreases k - from
  {
    if from < k {
      assert !MatchAt(s, pat, from);
      FindFirstMatch(s, pat, from + 1, k);
    }
  }

  /** `s.find(c, from)` for a single character: the first position holding `c`. */
  function IndexOf(s: string, c: char, from: nat): (r: Option<nat>)
    ensures r.Some? ==> from <= r.value < |s| && s[r.value] == c
    ensures r.Some? ==> forall k :: from <= k < r.value ==> s[k] != c
    ensures r.None? ==> forall k :: from <= k < |s| ==> s[k] != c
    decreases |s| - from
  {
    if from >= |s| then None
    else if s[from] == c then Some(from)
    else IndexOf(s, c, from + 1)
  }

  /** The first position holding `c` is what `IndexOf` returns. */
  lemma {:induction false} IndexOfAt(s: string, c: char, from: nat, k: nat)
    requires from <= k < |s| && s[k] == c
    requires forall j :: from <= j < k ==> s[j] != c
    ensures IndexOf(s, c, from) == Some(k)
    decreases k - from
  {
    if from < k {
      IndexOfAt(s, c, from + 1, k);
    }
  }

  /** Searching for a one-character string is searching for the character. */
  lemma IndexOfIsFind(s: string, c: char, from: nat)
    ensures IndexOf(s, c, from) == Find(s, [c], from)
  {
    var r := IndexOf(s, c, from);
    forall k | from <= k && (r.None? || k < r.value)
      ensures !MatchAt(s, [c], k)
    {
      if k < |s| {
        assert s[k..k + 1] == [s[k]];
      }
    }
    if r.Some? {
      assert s[r.value..r.value + 1] == [c];
      FindFirstMatch(s, [c], from, r.value);
    }
  }

  /** `s.find(pat) == 0`, the server's test for a path prefix. */
  predicate StartsWith(s: string, pat: string)
  {
    |pat| <= |s| && s[..|pat|] == pat
  }

  /** `s.find(pat) != npos`. */
  predicate Contains(s: string, pat: string)
  {
    Find(s, pat, 0).Some?
  }

  lemma StartsWithIsFindAtZero(s: string, pat: string)
    ensures StartsWith(s, pat) <==> Find(s, pat, 0) == Some(0)
  {
    if StartsWith(s, pat) {
      assert MatchAt(s, pat, 0);
    }
  }

  /** `isdigit` in the C locale. */
  predicate IsDigit(c: char)
  {
    '0' <= c <= '9'
  }

  predicate AllDigits(s: string)
  {
    forall i :: 0 <= i < |s| ==> IsDigit(s[i])
  }

  function DigitChar(d: nat): (c: char)
    requires d < 10
    ensures IsDigit(c) && c as int - '0' as int == d
  {
    (d + '0' as int) as char
  }

  /** The value of a run of decimal digits, read left to right (leading zeros allowed). */
  function DecimalValue(ds: string): nat
    requires AllDigits(ds)
  {
    if ds == [] then 0
    else DecimalValue(ds[..|ds| - 1]) * 10 + (ds[|ds| - 1] as int - '0' as int)
  }

  /** The digits `operator<<` writes for a non-negative `int`. */
  function NatToString(n: nat): (s: string)
    ensures |s| > 0 && AllDigits(s)
  {
    if n < 10 then [DigitChar(n)]
    else NatToString(n / 10) + [DigitChar(n % 10)]
  }

  /** Reading back a formatted number gives the number. */
  lemma {:induction false} NatToStringRoundTrip(n: nat)
    ensures DecimalValue(NatToString(n)) == n
  {
    var s := NatToString(n);
    if n >= 10 {
      NatToStringRoundTrip(n / 10);
      assert s[..|s| - 1] == NatToString(n / 10);
    }
  }

  /** `NatToString` never writes a leading zero, so different numbers give different strings. */
  lemma NatToStringInjective(m: nat, n: nat)
    requires NatToString(m) == NatToString(n)
    ensures m == n
  {
    NatToStringRoundTrip(m);
    NatToStringRoundTrip(n);
  }

  /** A non-empty sequence is its head followed by its tail. */
  lemma HeadTail<T>(s: seq<T>)
    requires |s| > 0
    ensures s == [s[0]] + s[1..]
    ensures |s| == 1 ==> s == [s[0]]
  {
  }

  lemma ConcatAssoc<T>(a: seq<T>, b: seq<T>, c: seq<T>)
    ensures a + b + c == a + (b + c)
  {
  }

  /** `parts` separated by commas: what the serialisers' `if (i > 0) out << ","` loops write. */
  function CommaJoin(parts: seq<string>): string
  {
    if |parts| == 0 then ""
    else if |parts| == 1 then parts[0]
    else parts[0] + "," + CommaJoin(parts[1..])
  }

  /** Appending one more part at the end, as the serialiser loops do. */
  lemma {:induction false} CommaJoinSnoc(parts: seq<string>, x: string)
    ensures CommaJoin(parts + [x]) == CommaJoin(parts) + (if |parts| > 0 then "," else "") + x
  {
    if |parts| == 1 {
      assert (parts + [x])[1..] == [x];
    } else if |parts| > 1 {
      CommaJoinSnoc(parts[1..], x);
      assert (parts + [x])[1..] == parts[1..] + [x];
    }
  }
}
