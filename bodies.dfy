/**
 * The ad hoc readers `handle_client` applies to request bodies: the square
 * index of `/api/mark_square` (`extract_index_from_body`), and the username
 * and winning squares of `/api/submit_bingo`. None of them parses JSON; each
 * searches for a key and takes the characters after it.
 */
module Bodies {
  import opened Wrappers
  import opened Text
  import opened Json
  import opened Serialise
  import opened Decode

  /** The largest value `std::stoi` returns without throwing `out_of_range`. */
  const IntMax: int := 2147483647

  const IndexKey := "\"index\":"

  /** The end of the run of decimal digits that starts at `i`. */
  function DigitsEnd(s: string, i: nat): (j: nat)
    requires i <= |s|
    ensures i <= j <= |s|
    ensures forall k :: i <= k < j ==> IsDigit(s[k])
    ensures j < |s| ==> !IsDigit(s[j])
    decreases |s| - i
  {
    if i < |s| && IsDigit(s[i]) then DigitsEnd(s, i + 1) else i
  }

  /**
   * What `extract_index_from_body` returns: the value of the digits that
   * follow the first `"index":` immediately, or -1 when the key is missing,
   * no digit follows it, or the value does not fit an `int`.
   */
  function IndexFromBody(body: string): (r: int)
    ensures -1 <= r <= IntMax
    ensures r != -1 ==>
      (Find(body, IndexKey, 0).Some?
       && Find(body, IndexKey, 0).value + |IndexKey| < |body|
       && IsDigit(body[Find(body, IndexKey, 0).value + |IndexKey|]))
  {
    match Find(body, IndexKey, 0)
    case None => -1
    case Some(p) =>
      var start := p + |IndexKey|;
      var end := DigitsEnd(body, start);
      if end == start then -1
      else
        var value := DecimalValue(body[start..end]);
        if value > IntMax then -1 else value
  }

  /** `extract_index_from_body`, with its digit-scanning loop. */
  method ExtractIndex(body: string) returns (index: int)
    ensures index == IndexFromBody(body)
    ensures index < 0 ==> index == -1
  {
    var found := Find(body, IndexKey, 0);
    if found.None? {
      return -1;
    }
    var start := found.value + |IndexKey|;
    var end := start;
    while end < |body| && IsDigit(body[end])
      invariant start <= end <= |body|
      invariant DigitsEnd(body, end) == DigitsEnd(body, start)
      decreases |body| - end
    {
      end := end + 1;
    }
    if end == start {
      return -1;
    }
    var value := DecimalValue(body[start..end]);
    if value > IntMax {
      return -1;
    }
    return value;
  }

  lemma {:induction false} DigitsEndAt(s: string, i: nat, j: nat)
    requires i <= j <= |s| && (j < |s| ==> !IsDigit(s[j]))
    requires forall k :: i <= k < j ==> IsDigit(s[k])
    ensures DigitsEnd(s, i) == j
    decreases j - i
  {
    if i < j {
      DigitsEndAt(s, i + 1, j);
    }
  }

  /**
   * A run of digits written right after the first `"index":` and not followed
   * by another digit reads back as its decimal value, leading zeros and all, or
   * as -1 when that value exceeds `IntMax`.
   */
  lemma IndexRoundTrip(pre: string, digits: string, rest: string)
    requires |digits| > 0 && AllDigits(digits)
    requires forall k :: 0 <= k < |pre| ==> !MatchAt(pre + IndexKey + digits + rest, IndexKey, k)
    requires rest == [] || !IsDigit(rest[0])
    ensures IndexFromBody(pre + IndexKey + digits + rest) ==
      if DecimalValue(digits) <= IntMax then DecimalValue(digits) else -1
  {
    var s := pre + IndexKey + digits + rest;
    KeyThenValue(pre, IndexKey, digits, rest);
    FindFirstMatch(s, IndexKey, 0, |pre|);
    IndexAt(s, |pre|, digits);
  }

  /** Where the key and the value sit in `pre + key + value + rest`. */
  lemma KeyThenValue(pre: string, key: string, value: string, rest: string)
    ensures var s := pre + key + value + rest;
      var start := |pre| + |key|;
      && |s| == start + |value| + |rest|
      && MatchAt(s, key, |pre|)
      && s[start..start + |value|] == value
      && (|rest| > 0 ==> s[start + |value|] == rest[0])
  {
    var s := pre + key + value + rest;
    var start := |pre| + |key|;
    assert s[|pre|..start] == key;
    assert s[start..start + |value|] == value;
  }

  /** Once the key is found at `p`, the index is the value of the digits that follow it. */
  lemma IndexAt(s: string, p: nat, digits: string)
    requires |digits| > 0 && AllDigits(digits)
    requires Find(s, IndexKey, 0) == Some(p)
    requires p + |IndexKey| + |digits| <= |s|
    requires s[p + |IndexKey|..p + |IndexKey| + |digits|] == digits
    requires p + |IndexKey| + |digits| < |s| ==> !IsDigit(s[p + |IndexKey| + |digits|])
    ensures IndexFromBody(s) == if DecimalValue(digits) <= IntMax then DecimalValue(digits) else -1
  {
    var start := p + |IndexKey|;
    forall k | start <= k < start + |digits|
      ensures IsDigit(s[k])
    {
      assert s[k] == digits[k - start];
    }
    var end := start + |digits|;
    DigitsEndAt(s, start, end);
    assert s[start..end] == digits;
    var value := DecimalValue(digits);
    assert IndexFromBody(s) == if value > IntMax then -1 else value;
  }

  /** Leading zeros are read past, as `std::stoi` does: `"index":007` gives 7. */
  lemma LeadingZerosIgnored()
    ensures IndexFromBody("{" + IndexKey + "007" + "}") == 7
  {
    var s := "{" + IndexKey + "007" + "}";
    assert !MatchAt(s, IndexKey, 0) by {
      assert s[0] == '{';
    }
    assert DecimalValue("007") == 7 by {
      assert "007"[..2] == "00" && "00"[..1] == "0" && "0"[..0] == "";
    }
    IndexRoundTrip("{", "007", "}");
  }

  /** The body `{"index":i}`, holding the index of square `i` and nothing else, is read back as `i`. */
  lemma MarkRequestIndex(i: nat)
    requires i < 25
    ensures IndexFromBody("{" + IndexKey + NatToString(i) + "}") == i
  {
    var s := "{" + IndexKey + NatToString(i) + "}";
    assert !MatchAt(s, IndexKey, 0) by {
      assert s[0] == '{';
    }
    IndexRoundTrip("{", NatToString(i), "}");
    NatToStringRoundTrip(i);
  }

  /** The digits must follow the colon at once: a space in between gives -1. */
  lemma SpaceAfterColon()
    ensures IndexFromBody("{\"index\": 7}") == -1
  {
    var s := "{\"index\": 7}";
    assert s[1..9] == IndexKey;
    assert !MatchAt(s, IndexKey, 0) by {
      assert s[0] == '{';
    }
    FindFirstMatch(s, IndexKey, 0, 1);
    assert !IsDigit(s[9]);
  }

  const UserKey := "\"username\":\""

  /**
   * The username of a submission: from just after the first `"username":"`
   * to the next quote, or to the end of the body when there is none; `None`
   * when the key is missing.
   */
  function UsernameOf(body: string): (r: Option<string>)
    ensures r.Some? ==> '"' !in r.value
    ensures r.None? <==> !Contains(body, UserKey)
  {
    match Find(body, UserKey, 0)
    case None => None
    case Some(p) =>
      var start := p + |UserKey|;
      match IndexOf(body, '"', start)
      case None => Some(body[start..])
      case Some(e) => Some(body[start..e])
  }

  /** A name without quotes behind the first `"username":"` is read back whole. */
  lemma UsernameRoundTrip(pre: string, name: string, rest: string)
    requires '"' !in name
    requires forall k :: 0 <= k < |pre| ==> !MatchAt(pre + UserKey + name + "\"" + rest, UserKey, k)
    ensures UsernameOf(pre + UserKey + name + "\"" + rest) == Some(name)
  {
    var s := pre + UserKey + name + "\"" + rest;
    var start := |pre| + |UserKey|;
    Text.ConcatAssoc(pre + UserKey + name, "\"", rest);
    KeyThenValue(pre, UserKey, name, "\"" + rest);
    FindFirstMatch(s, UserKey, 0, |pre|);
    forall k | start <= k < start + |name|
      ensures s[k] != '"'
    {
      assert s[k] == name[k - start];
    }
    assert s[start + |name|] == '"';
  }

  /** A quote the client escaped ends the name at the backslash. */
  lemma UsernameStopsAtEscapedQuote()
    ensures UsernameOf(UserKey + "a\\\"b\"}") == Some("a\\")
  {
    UsernameRoundTrip("", "a\\", "b\"}");
    assert "a\\\"b\"}" == "a\\" + "\"" + "b\"}";
    EmptyThen(UserKey, "a\\", "\"", "b\"}");
  }

  lemma EmptyThen(k: string, a: string, q: string, b: string)
    ensures "" + k + a + q + b == k + (a + q + b)
  {
  }

  const SquaresKey := "\"winning_squares\":"
  const ListKey := "\"list\":["
  const EscapedQuote := "\\\""

  /** Where the phrase list starts: just after the `"list":[` that follows the first `"winning_squares":`. */
  function ListStart(body: string): (r: Option<nat>)
    ensures r.Some? ==> r.value <= |body|
  {
    var sp :- Find(body, SquaresKey, 0);
    var lp :- Find(body, ListKey, sp);
    Some(lp + |ListKey|)
  }

  lemma ListStartAt(body: string, sp: nat, lp: nat)
    requires Find(body, SquaresKey, 0) == Some(sp) && Find(body, ListKey, sp) == Some(lp)
    ensures ListStart(body) == Some(lp + |ListKey|) && lp + |ListKey| <= |body|
  {
  }

  /**
   * The text the submit handler scans for winning squares: from after the
   * `"list":[` that follows the first `"winning_squares":`, up to the next
   * `]` or the end of the body.
   */
  function ListText(body: string): Option<string>
  {
    var start :- ListStart(body);
    match IndexOf(body, ']', start)
    case None => Some(body[start..])
    case Some(e) => Some(body[start..e])
  }

  /** A backslash followed by a quote starts at `p`. */
  predicate EscapedQuoteAt(s: string, p: nat)
  {
    p + 1 < |s| && s[p] == '\\' && s[p + 1] == '"'
  }

  /** `square.find("\\\"", from)`. */
  function FindEscapedQuote(s: string, from: nat): (r: Option<nat>)
    ensures r.Some? ==> from <= r.value && EscapedQuoteAt(s, r.value)
    ensures r.Some? ==> forall k :: from <= k < r.value ==> !EscapedQuoteAt(s, k)
    ensures r.None? ==> forall k :: from <= k ==> !EscapedQuoteAt(s, k)
    decreases |s| - from
  {
    if from + 1 >= |s| then None
    else if EscapedQuoteAt(s, from) then Some(from)
    else FindEscapedQuote(s, from + 1)
  }

  /** The character-level search is the library's substring search. */
  lemma FindEscapedQuoteIsFind(s: string, from: nat)
    ensures FindEscapedQuote(s, from) == Find(s, EscapedQuote, from)
  {
    var r := FindEscapedQuote(s, from);
    forall k | from <= k && (r.None? || k < r.value)
      ensures !MatchAt(s, EscapedQuote, k)
    {
      assert EscapedQuote == ['\\', '"'];
      assert !EscapedQuoteAt(s, k);
      if k + 2 <= |s| {
        assert s[k..k + 2] == [s[k], s[k + 1]];
      }
    }
    if r.Some? {
      assert s[r.value..r.value + 2] == EscapedQuote;
      FindFirstMatch(s, EscapedQuote, from, r.value);
    }
  }

  /** The in-place loop that turns each `\\"` of an item into `"`, resuming after the quote it wrote. */
  function UnescapeQuotes(square: string, from: nat): string
    decreases |square| - from
  {
    match FindEscapedQuote(square, from)
    case None => square
    case Some(p) => UnescapeQuotes(square[..p] + "\"" + square[p + 2..], p + 1)
  }

  /** The text between each pair of successive quotes, from `pos` on. */
  function RawRuns(s: string, pos: nat): seq<string>
    decreases |s| - pos
  {
    if pos >= |s| then []
    else match IndexOf(s, '"', pos)
      case None => []
      case Some(q1) =>
        match IndexOf(s, '"', q1 + 1)
        case None => []
        case Some(q2) => [s[q1 + 1..q2]] + RawRuns(s, q2 + 1)
  }

  /** Each raw item after the replacement loop has run on it. */
  function UnescapeEach(items: seq<string>): (r: seq<string>)
    ensures |r| == |items|
  {
    if items == [] then [] else [UnescapeQuotes(items[0], 0)] + UnescapeEach(items[1..])
  }

  lemma UnescapeEachCons(x: string, items: seq<string>)
    ensures UnescapeEach([x] + items) == [UnescapeQuotes(x, 0)] + UnescapeEach(items)
  {
    assert ([x] + items)[1..] == items;
  }

  /** The items as written: the raw runs of the list text, each then unescaped. */
  function QuotedRuns(s: string): seq<string>
  {
    UnescapeEach(RawRuns(s, 0))
  }

  /** The outer scan stops when no opening or no closing quote is left. */
  lemma QuotedRunsStop(s: string, pos: nat)
    requires pos < |s|
    requires IndexOf(s, '"', pos).None? || IndexOf(s, '"', IndexOf(s, '"', pos).value + 1).None?
    ensures RawRuns(s, pos) == []
  {
  }

  /** One turn of the outer scan: the item between the quotes at `q1` and `q2`. */
  lemma QuotedRunsPair(s: string, pos: nat, q1: nat, q2: nat)
    requires pos < |s|
    requires IndexOf(s, '"', pos) == Some(q1) && IndexOf(s, '"', q1 + 1) == Some(q2)
    ensures RawRuns(s, pos) == [s[q1 + 1..q2]] + RawRuns(s, q2 + 1)
  {
  }

  /** The winning squares the submit handler records, as the code is written. */
  function WinningSquaresAsWritten(body: string): seq<string>
  {
    match ListText(body)
    case None => []
    case Some(list) => QuotedRuns(list)
  }

  /** The `"winning_squares"` scan of the submit handler. */
  method ExtractWinningSquares(body: string) returns (squares: seq<string>)
    ensures squares == WinningSquaresAsWritten(body)
  {
    squares := [];
    var sp := Find(body, SquaresKey, 0);
    if sp.None? {
      return;
    }
    var lp := Find(body, ListKey, sp.value);
    if lp.None? {
      return;
    }
    var listStart := lp.value + |ListKey|;
    var listEnd := IndexOf(body, ']', listStart);
    var list := if listEnd.Some? then body[listStart..listEnd.value] else body[listStart..];
    assert ListText(body) == Some(list);
    squares := ScanQuotedRuns(list);
  }

  /** The outer `while (pos < list_str.length())` loop over quote pairs. */
  method ScanQuotedRuns(list: string) returns (squares: seq<string>)
    ensures squares == QuotedRuns(list)
  {
    squares := [];
    var pos := 0;
    while pos < |list|
      invariant squares + UnescapeEach(RawRuns(list, pos)) == QuotedRuns(list)
      decreases |list| - pos
    {
      var found, raw, next := NextQuotedRun(list, pos);
      if !found {
        break;
      }
      var square := UnescapeInPlace(raw);
      UnescapeEachCons(raw, RawRuns(list, next));
      ConcatAssoc(squares, [square], UnescapeEach(RawRuns(list, next)));
      squares := squares + [square];
      pos := next;
    }
  }

  /** One turn of the outer loop: the text between the next two quotes and where the scan resumes. */
  method NextQuotedRun(list: string, pos: nat) returns (found: bool, raw: string, next: nat)
    requires pos < |list|
    ensures found ==> pos < next && RawRuns(list, pos) == [raw] + RawRuns(list, next)
    ensures !found ==> RawRuns(list, pos) == []
  {
    var quote1 := IndexOf(list, '"', pos);
    if quote1.None? {
      QuotedRunsStop(list, pos);
      return false, "", pos;
    }
    var quote2 := IndexOf(list, '"', quote1.value + 1);
    if quote2.None? {
      QuotedRunsStop(list, pos);
      return false, "", pos;
    }
    found, raw, next := true, list[quote1.value + 1..quote2.value], quote2.value + 1;
    QuotedRunsPair(list, pos, quote1.value, quote2.value);
  }

  /** The inner loop: `square.replace(escape_pos, 2, "\"")` at each `\"` found. */
  method UnescapeInPlace(raw: string) returns (square: string)
    ensures square == UnescapeQuotes(raw, 0)
  {
    square := raw;
    var escapePos := 0;
    var next := FindEscapedQuote(square, escapePos);
    while next.Some?
      invariant next == FindEscapedQuote(square, escapePos)
      invariant UnescapeQuotes(square, escapePos) == UnescapeQuotes(raw, 0)
      decreases |square| - escapePos
    {
      square := square[..next.value] + "\"" + square[next.value + 2..];
      escapePos := next.value + 1;
      next := FindEscapedQuote(square, escapePos);
    }
  }

  /** An item without a quote has nothing for the unescaping loop to find. */
  lemma UnescapeNothing(square: string, from: nat)
    requires '"' !in square
    ensures UnescapeQuotes(square, from) == square
  {
  }

  /**
   * Every item lies between two successive quotes, so none holds a quote and
   * the `\"` replacement never fires: each item is the raw text between a
   * pair of quotes.
   */
  lemma {:induction false} RawRunsHaveNoQuote(s: string, pos: nat, i: nat)
    requires i < |RawRuns(s, pos)|
    ensures '"' !in RawRuns(s, pos)[i]
    decreases |s| - pos
  {
    var next := RunAt(s, pos);
    if i > 0 {
      RawRunsHaveNoQuote(s, next, i - 1);
    }
  }

  /**
   * A scan that yields an item found two quotes: the item between them holds
   * no quote, and the other items are those of the scan after the second.
   */
  lemma RunAt(s: string, pos: nat) returns (next: nat)
    requires |RawRuns(s, pos)| > 0
    ensures pos < next
    ensures '"' !in RawRuns(s, pos)[0]
    ensures |RawRuns(s, pos)| == |RawRuns(s, next)| + 1
    ensures forall j :: 0 < j < |RawRuns(s, pos)| ==> RawRuns(s, pos)[j] == RawRuns(s, next)[j - 1]
  {
    var q1 := IndexOf(s, '"', pos).value;
    var q2 := IndexOf(s, '"', q1 + 1).value;
    next := q2 + 1;
    var raw := s[q1 + 1..q2];
    assert RawRuns(s, pos) == [raw] + RawRuns(s, next);
    forall k | 0 <= k < |raw|
      ensures raw[k] != '"'
    {
      assert raw[k] == s[q1 + 1 + k];
    }
  }

  lemma {:induction false} UnescapeEachNothing(items: seq<string>)
    requires forall i :: 0 <= i < |items| ==> '"' !in items[i]
    ensures UnescapeEach(items) == items
  {
    if items != [] {
      UnescapeNothing(items[0], 0);
      UnescapeEachNothing(items[1..]);
      assert items == [items[0]] + items[1..];
    }
  }

  /** The scan as written keeps each raw item unchanged: the replacement loop has nothing to replace. */
  lemma UnescapeIsDeadCode(list: string)
    ensures QuotedRuns(list) == RawRuns(list, 0)
  {
    forall i | 0 <= i < |RawRuns(list, 0)|
      ensures '"' !in RawRuns(list, 0)[i]
    {
      RawRunsHaveNoQuote(list, 0, i);
    }
    UnescapeEachNothing(RawRuns(list, 0));
  }

  /** The list text the board page sends back for the one phrase `say "hi"`. */
  const SayHiList := "\"say \\\"hi\\\"\""

  lemma SayHiListIsWhatTheWriterWrites()
    ensures CommaJoin(QuotedParts(["say \"hi\""])) == SayHiList
  {
    var t := "say \"hi\"";
    var e := "\\\"";
    EscapedSayHi(t, e);
    OnePart(t);
    SayHiLiteral(e);
  }

  lemma OnePart(t: string)
    ensures CommaJoin(QuotedParts([t])) == QuotedJson(t)
  {
    assert QuotedParts([t]) == [QuotedJson(t)];
  }

  lemma SayHiLiteral(e: string)
    requires e == "\\\""
    ensures "\"" + ("say " + e + "hi" + e) + "\"" == SayHiList
  {
  }

  /** Escaping `say "hi"` writes a backslash before each quote. */
  lemma EscapedSayHi(t: string, e: string)
    requires t == "say \"hi\"" && e == "\\\""
    ensures Escaped(t) == "say " + e + "hi" + e
  {
    var q := ['"'];
    assert t == "say " + q + "hi" + q;
    EscapedPlain("say ");
    EscapedPlain("hi");
    EscapedAppend("say " + q + "hi", q);
    EscapedAppend("say " + q, "hi");
    EscapedAppend("say ", q);
    assert Escaped(q) == e;
  }

  /**
   * The as-written scan splits that phrase at its escaped quote: it records
   * `say \` and an empty item instead of `say "hi"`.
   */
  lemma AsWrittenSplitsEscapedQuote()
    ensures QuotedRuns(SayHiList) == ["say \\", ""]
  {
    SayHiRawRuns();
    UnescapeIsDeadCode(SayHiList);
  }

  /** Where the quotes of `SayHiList` are, as the scan finds them. */
  lemma SayHiQuotes()
    ensures |SayHiList| == 12
    ensures IndexOf(SayHiList, '"', 0) == Some(0) && IndexOf(SayHiList, '"', 1) == Some(6)
    ensures IndexOf(SayHiList, '"', 7) == Some(10) && IndexOf(SayHiList, '"', 11) == Some(11)
    ensures SayHiList[1..6] == "say \\" && SayHiList[11..11] == ""
  {
    var l := SayHiList;
    assert |l| == 12 && l[0] == '"' && l[6] == '"' && l[10] == '"' && l[11] == '"';
    IndexOfAt(l, '"', 0, 0);
    IndexOfAt(l, '"', 1, 6);
    IndexOfAt(l, '"', 7, 10);
    IndexOfAt(l, '"', 11, 11);
    assert l[1..6] == "say \\";
  }

  /** The quote pairs of `SayHiList`: `"say \"` and `""`. */
  lemma SayHiRawRuns()
    ensures RawRuns(SayHiList, 0) == ["say \\", ""]
  {
    var l := SayHiList;
    SayHiQuotes();
    QuotedRunsPair(l, 0, 0, 6);
    QuotedRunsPair(l, 7, 10, 11);
    assert RawRuns(l, 12) == [];
  }

  /**
   * The corrected reading of the submitted winning squares: after the same
   * keys, the list is read as JSON strings up to the `]` that closes it, so
   * escaped quotes and `]` inside a phrase survive.
   */
  function WinningSquaresOf(body: string): seq<string>
  {
    match ListStart(body)
    case None => []
    case Some(start) =>
      match ReadStringList(body[start..])
      case None => []
      case Some(r) => r.0
  }

  /** Any list of phrases written as the server writes them reads back exactly. */
  lemma WinningSquaresRoundTrip(body: string, sp: nat, lp: nat, items: seq<string>, rest: string)
    requires Find(body, SquaresKey, 0) == Some(sp) && Find(body, ListKey, sp) == Some(lp)
    requires lp + |ListKey| <= |body|
    requires body[lp + |ListKey|..] == CommaJoin(QuotedParts(items)) + "]" + rest
    ensures WinningSquaresOf(body) == items
  {
    StringListRoundTrip(items, rest);
    WinningSquaresAfterKeys(body, sp, lp, (items, rest));
  }

  /** Once both keys are found, the corrected reader returns what the list reader reads after them. */
  lemma WinningSquaresAfterKeys(body: string, sp: nat, lp: nat, r: (seq<string>, string))
    requires Find(body, SquaresKey, 0) == Some(sp) && Find(body, ListKey, sp) == Some(lp)
    requires lp + |ListKey| <= |body|
    requires ReadStringList(body[lp + |ListKey|..]) == Some(r)
    ensures WinningSquaresOf(body) == r.0
  {
    ListStartAt(body, sp, lp);
  }

  /** A phrase the as-written scan handles: no character JSON escapes, and no `]`. */
  predicate Simple(t: string)
  {
    forall k :: 0 <= k < |t| ==> !Special(t[k]) && t[k] != ']'
  }

  lemma QuotedRunsSkip(s: string, p: nat)
    requires p + 1 < |s| && s[p] != '"'
    ensures RawRuns(s, p) == RawRuns(s, p + 1)
  {
    assert IndexOf(s, '"', p) == IndexOf(s, '"', p + 1);
  }

  /** An item in quotes at `pos`, holding no quote itself, is the next item scanned. */
  lemma FirstRun(s: string, pos: nat, x: string)
    requires '"' !in x
    requires pos + |x| + 2 <= |s| && s[pos..pos + |x| + 2] == "\"" + x + "\""
    ensures RawRuns(s, pos) == [x] + RawRuns(s, pos + |x| + 2)
  {
    var q2 := pos + 1 + |x|;
    var w := s[pos..q2 + 1];
    assert s[pos] == w[0] == '"' && s[q2] == w[|x| + 1] == '"';
    forall j | pos + 1 <= j < q2
      ensures s[j] != '"'
    {
      assert s[j] == w[j - pos] == x[j - pos - 1];
    }
    IndexOfAt(s, '"', pos, pos);
    IndexOfAt(s, '"', pos + 1, q2);
    assert s[pos + 1..q2] == x by {
      forall j | 0 <= j < |x|
        ensures s[pos + 1..q2][j] == x[j]
      {
        assert s[pos + 1 + j] == w[j + 1] == x[j];
      }
    }
    QuotedRunsPair(s, pos, pos, q2);
  }

  /** The list splits after its first element. */
  lemma JoinHead(items: seq<string>)
    requires |items| > 0
    ensures CommaJoin(QuotedParts(items)) == QuotedJson(items[0])
      + (if |items| > 1 then "," + CommaJoin(QuotedParts(items[1..])) else "")
  {
    if |items| > 1 {
      assert QuotedParts(items)[1..] == QuotedParts(items[1..]);
    }
  }

  /** A quoted item at `pos` followed by `tail`. */
  lemma AfterHead(s: string, pos: nat, x: string, tail: string)
    requires '"' !in x
    requires pos <= |s| && s[pos..] == "\"" + x + "\"" + tail
    ensures pos + |x| + 2 <= |s| && s[pos + |x| + 2..] == tail
    ensures RawRuns(s, pos) == [x] + RawRuns(s, pos + |x| + 2)
  {
    var head := "\"" + x + "\"";
    var after := pos + |head|;
    assert s[pos..after] == head by {
      assert s[pos..after] == s[pos..][..|head|];
    }
    FirstRun(s, pos, x);
    assert s[after..] == s[pos..][|head|..];
  }

  /** A single simple item. */
  lemma SimpleRunsLast(s: string, pos: nat, x: string)
    requires pos <= |s| && s[pos..] == CommaJoin(QuotedParts([x]))
    requires '"' !in x && QuotedJson(x) == "\"" + x + "\""
    ensures RawRuns(s, pos) == [x]
  {
    JoinHead([x]);
    assert s[pos..] == "\"" + x + "\"" + "";
    AfterHead(s, pos, x, "");
    assert RawRuns(s, pos + |x| + 2) == [];
  }

  /** A quoted item at `pos`, then a comma and more of the list. */
  lemma HeadThenComma(s: string, pos: nat, x: string, more: string)
    requires '"' !in x && |more| > 0
    requires pos <= |s| && s[pos..] == "\"" + x + "\"" + ("," + more)
    ensures pos + |x| + 3 <= |s| && s[pos + |x| + 3..] == more
    ensures RawRuns(s, pos) == [x] + RawRuns(s, pos + |x| + 3)
  {
    AfterHead(s, pos, x, "," + more);
    var after := pos + |x| + 2;
    assert s[after] == ',';
    assert s[after + 1..] == more by {
      assert s[after + 1..] == s[after..][1..];
    }
    QuotedRunsSkip(s, after);
  }

  /** The first of several simple items, and where the scan of the others starts. */
  lemma SimpleRunsStep(s: string, pos: nat, items: seq<string>) returns (next: nat)
    requires pos <= |s| && s[pos..] == CommaJoin(QuotedParts(items))
    requires |items| > 1 && '"' !in items[0] && QuotedJson(items[0]) == "\"" + items[0] + "\""
    ensures pos < next <= |s| && s[next..] == CommaJoin(QuotedParts(items[1..]))
    ensures RawRuns(s, pos) == [items[0]] + RawRuns(s, next)
  {
    var x := items[0];
    JoinHead(items);
    var more := CommaJoin(QuotedParts(items[1..]));
    JoinHead(items[1..]);
    assert |more| > 0;
    assert s[pos..] == "\"" + x + "\"" + ("," + more);
    HeadThenComma(s, pos, x, more);
    next := pos + |x| + 3;
  }

  /** A simple phrase is written between quotes as it is, and holds no quote. */
  lemma SimpleQuoted(x: string)
    requires Simple(x)
    ensures '"' !in x && QuotedJson(x) == "\"" + x + "\""
  {
    EscapedPlain(x);
  }

  /** On simple phrases the as-written scan reads the written list correctly. */
  lemma {:induction false} SimpleRuns(s: string, pos: nat, items: seq<string>)
    requires pos <= |s| && s[pos..] == CommaJoin(QuotedParts(items))
    requires forall i :: 0 <= i < |items| ==> Simple(items[i])
    ensures RawRuns(s, pos) == items
    decreases |items|
  {
    if |items| > 0 {
      SimpleQuoted(items[0]);
      if |items| == 1 {
        assert items == [items[0]];
        SimpleRunsLast(s, pos, items[0]);
      } else {
        var next := SimpleRunsStep(s, pos, items);
        assert forall i :: 0 <= i < |items[1..]| ==> items[1..][i] == items[i + 1];
        SimpleRuns(s, next, items[1..]);
        assert [items[0]] + items[1..] == items;
      }
    }
  }

  /** The first part opens a comma-joined list. */
  lemma JoinPrefix(parts: seq<string>)
    requires |parts| > 0
    ensures |parts[0]| <= |CommaJoin(parts)| && CommaJoin(parts)[..|parts[0]|] == parts[0]
  {
  }

  /** Simple phrases written as a list hold no `]`, so the list's own bracket ends the scan. */
  lemma {:induction false} SimpleJoinHasNoBracket(items: seq<string>)
    requires forall i :: 0 <= i < |items| ==> Simple(items[i])
    ensures ']' !in CommaJoin(QuotedParts(items))
    decreases |items|
  {
    if |items| > 0 {
      assert Simple(items[0]);
      EscapedPlain(items[0]);
      JoinHead(items);
      assert ']' !in items[0] by {
        forall k | 0 <= k < |items[0]| ensures items[0][k] != ']' { }
      }
      if |items| > 1 {
        assert forall i :: 0 <= i < |items[1..]| ==> items[1..][i] == items[i + 1];
        SimpleJoinHasNoBracket(items[1..]);
      }
    }
  }

  /**
   * On a body holding the list as the board page writes it, with simple
   * phrases only, the as-written scan and the corrected reader agree.
   */
  lemma AsWrittenAgreesOnSimple(body: string, sp: nat, lp: nat, items: seq<string>, rest: string)
    requires Find(body, SquaresKey, 0) == Some(sp) && Find(body, ListKey, sp) == Some(lp)
    requires lp + |ListKey| <= |body|
    requires body[lp + |ListKey|..] == CommaJoin(QuotedParts(items)) + "]" + rest
    requires forall i :: 0 <= i < |items| ==> Simple(items[i])
    ensures WinningSquaresAsWritten(body) == items == WinningSquaresOf(body)
  {
    WinningSquaresRoundTrip(body, sp, lp, items, rest);
    ListStartAt(body, sp, lp);
    var list := CommaJoin(QuotedParts(items));
    SimpleJoinHasNoBracket(items);
    ListTextUpToBracket(body, lp + |ListKey|, list, rest);
    assert list[0..] == list;
    SimpleRuns(list, 0, items);
    UnescapeIsDeadCode(list);
  }

  /** A list with no `]` in it, followed by `]`, is the text the as-written scan works on. */
  lemma ListTextUpToBracket(body: string, start: nat, list: string, rest: string)
    requires ListStart(body) == Some(start)
    requires body[start..] == list + "]" + rest && ']' !in list
    ensures ListText(body) == Some(list)
  {
    var e := start + |list|;
    assert body[start..e] == list by {
      assert body[start..e] == body[start..][..|list|];
    }
    assert body[e] == ']' by {
      assert body[e] == body[start..][|list|];
    }
    forall j | start <= j < e
      ensures body[j] != ']'
    {
      assert body[j] == list[j - start];
    }
    IndexOfAt(body, ']', start, e);
  }
}
