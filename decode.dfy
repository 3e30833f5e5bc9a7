/**
 * Readers for the JSON the server writes, and the round trips that show the
 * writers lose nothing: a board gives back its id and squares, the
 * leaderboard gives back every entry, provided the fields written without
 * escaping (board id, timestamp) hold no quote or backslash.
 */
module Decode {
  import opened Wrappers
  import opened Text
  import opened Json
  import opened Model
  import opened Serialise

  /** Consumes the literal `lit` at the front of `s`. */
  function Expect(s: string, lit: string): (r: Option<string>)
    ensures r.Some? ==> s == lit + r.value
    ensures r.None? ==> !StartsWith(s, lit)
  {
    if lit == [] then Some(s)
    else if |s| > 0 && s[0] == lit[0] then
      var r := Expect(s[1..], lit[1..]);
      assert r.Some? ==> s == [s[0]] + s[1..];
      assert r.None? && |lit| <= |s| ==> s[1..][..|lit| - 1] == s[..|lit|][1..];
      r
    else None
  }

  lemma {:induction false} ExpectLiteral(lit: string, rest: string)
    ensures Expect(lit + rest, lit) == Some(rest)
  {
    if lit != [] {
      assert (lit + rest)[0] == lit[0];
      assert (lit + rest)[1..] == lit[1..] + rest;
      assert Expect(lit + rest, lit) == Expect(lit[1..] + rest, lit[1..]);
      ExpectLiteral(lit[1..], rest);
    } else {
      assert lit + rest == rest;
    }
  }

  /** Whether `s` opens with the character `c`. */
  predicate Next(s: string, c: char)
  {
    |s| > 0 && s[0] == c
  }

  function ReadBool(s: string): (r: Option<(bool, string)>)
    ensures r.Some? ==> |r.value.1| < |s|
  {
    if Next(s, 't') then
      var rest :- Expect(s, "true");
      Some((true, rest))
    else
      var rest :- Expect(s, "false");
      Some((false, rest))
  }

  function ReadQuoted(s: string): (r: Option<(string, string)>)
    ensures r.Some? ==> |r.value.1| < |s|
  {
    var a :- Expect(s, "\"");
    ReadString(a)
  }

  function ReadSquare(s: string): (r: Option<(Square, string)>)
    ensures r.Some? ==> |r.value.1| < |s|
  {
    var a :- Expect(s, "{\"text\":\"");
    var t :- ReadString(a);
    var b :- Expect(t.1, ",\"marked\":");
    var m :- ReadBool(b);
    var c :- Expect(m.1, "}");
    Some((Square(t.0, m.0), c))
  }

  /** One or more squares separated by commas, then `]`. */
  function ReadSquareItems(s: string): (r: Option<(seq<Square>, string)>)
    ensures r.Some? ==> |r.value.1| < |s|
    decreases |s|
  {
    var p :- ReadSquare(s);
    if Next(p.1, ',') then
      var q :- ReadSquareItems(p.1[1..]);
      Some(([p.0] + q.0, q.1))
    else
      var rest :- Expect(p.1, "]");
      Some(([p.0], rest))
  }

  /** The squares of a board after its `[`, through the closing `]`. */
  function ReadSquareList(s: string): Option<(seq<Square>, string)>
  {
    if Next(s, ']') then Some(([], s[1..])) else ReadSquareItems(s)
  }

  /** Reads a whole `board_to_json` text: the id and the squares. */
  function ReadBoard(s: string): Option<(string, seq<Square>)>
  {
    var a :- Expect(s, "{\"id\":\"");
    var id :- ReadString(a);
    var b :- Expect(id.1, ",\"squares\":[");
    var sq :- ReadSquareList(b);
    var c :- Expect(sq.1, "}");
    if c == "" then Some((id.0, sq.0)) else None
  }

  /** One or more quoted strings separated by commas, then `]`. */
  function ReadStringItems(s: string): (r: Option<(seq<string>, string)>)
    ensures r.Some? ==> |r.value.1| < |s|
    decreases |s|
  {
    var p :- ReadQuoted(s);
    if Next(p.1, ',') then
      var q :- ReadStringItems(p.1[1..]);
      Some(([p.0] + q.0, q.1))
    else
      var rest :- Expect(p.1, "]");
      Some(([p.0], rest))
  }

  function ReadStringList(s: string): (r: Option<(seq<string>, string)>)
    ensures r.Some? ==> |r.value.1| < |s|
  {
    if Next(s, ']') then Some(([], s[1..])) else ReadStringItems(s)
  }

  function ReadEntry(s: string): (r: Option<(LeaderboardEntry, string)>)
    ensures r.Some? ==> |r.value.1| < |s|
  {
    var a :- Expect(s, "{\"username\":\"");
    var name :- ReadString(a);
    var b :- Expect(name.1, ",\"timestamp\":\"");
    var time :- ReadString(b);
    var c :- Expect(time.1, ",\"board_id\":\"");
    var id :- ReadString(c);
    var d :- Expect(id.1, ",\"winning_squares\":[");
    var list :- ReadStringList(d);
    var e :- Expect(list.1, "}");
    Some((LeaderboardEntry(name.0, time.0, id.0, list.0), e))
  }

  function ReadEntryItems(s: string): (r: Option<(seq<LeaderboardEntry>, string)>)
    ensures r.Some? ==> |r.value.1| < |s|
    decreases |s|
  {
    var p :- ReadEntry(s);
    if Next(p.1, ',') then
      var q :- ReadEntryItems(p.1[1..]);
      Some(([p.0] + q.0, q.1))
    else
      var rest :- Expect(p.1, "]");
      Some(([p.0], rest))
  }

  /** Reads a whole `leaderboard_to_json` text. */
  function ReadLeaderboard(s: string): Option<seq<LeaderboardEntry>>
  {
    var a :- Expect(s, "[");
    var es :- if Next(a, ']') then Some(([], a[1..])) else ReadEntryItems(a);
    if es.1 == "" then Some(es.0) else None
  }

  lemma ReadBoolRoundTrip(b: bool, rest: string)
    ensures ReadBool(BoolJson(b) + rest) == Some((b, rest))
  {
    ExpectLiteral(BoolJson(b), rest);
    assert (BoolJson(b) + rest)[0] == BoolJson(b)[0];
  }

  lemma SquareJsonShape(sq: Square, rest: string, tail: string, mid: string)
    requires tail == ",\"marked\":" + (BoolJson(sq.marked) + ("}" + rest))
    requires mid == Escaped(sq.text) + "\"" + tail
    ensures SquareJson(sq) + rest == "{\"text\":\"" + mid
  {
    var e, k, b := Escaped(sq.text), "\"marked\":", BoolJson(sq.marked);
    var after := b + ("}" + rest);
    SquareRegroup("{\"text\":\"", e, "\",", k, b, "}", rest);
    QuoteThenKey(k, after);
    assert "," + k == ",\"marked\":";
    Assoc("," + k, b, "}" + rest);
    Assoc(e, "\"", tail);
  }

  /** The regrouping of `SquareJson` with its pieces left abstract. */
  lemma SquareRegroup(o: string, e: string, qc: string, k: string, b: string, c: string, rest: string)
    ensures o + e + qc + k + b + c + rest == o + (e + (qc + (k + (b + (c + rest)))))
  {
  }

  lemma SquareRoundTrip(sq: Square, rest: string)
    ensures ReadSquare(SquareJson(sq) + rest) == Some((sq, rest))
  {
    var afterBool := "}" + rest;
    var tail := ",\"marked\":" + (BoolJson(sq.marked) + afterBool);
    var mid := Escaped(sq.text) + "\"" + tail;
    SquareJsonShape(sq, rest, tail, mid);
    var s := SquareJson(sq) + rest;
    ExpectLiteral("{\"text\":\"", mid);
    assert Expect(s, "{\"text\":\"") == Some(mid);
    EscapedRoundTrip(sq.text, tail);
    assert ReadString(mid) == Some((sq.text, tail));
    ExpectLiteral(",\"marked\":", BoolJson(sq.marked) + afterBool);
    ReadBoolRoundTrip(sq.marked, afterBool);
    ExpectLiteral("}", rest);
  }

  /** How a comma-joined list closed by `]` splits at its first item. */
  lemma JoinShape(parts: seq<string>, rest: string)
    requires |parts| > 0
    ensures |parts| == 1 ==> CommaJoin(parts) + "]" + rest == parts[0] + ("]" + rest)
    ensures |parts| > 1 ==>
      CommaJoin(parts) + "]" + rest == parts[0] + ("," + (CommaJoin(parts[1..]) + "]" + rest))
  {
    if |parts| > 1 {
      Regroup(parts[0], ",", CommaJoin(parts[1..]), "]", rest);
    }
  }

  lemma Regroup(a: string, b: string, c: string, d: string, e: string)
    ensures a + b + c + d + e == a + (b + (c + d + e))
  {
  }

  lemma {:induction false} SquareItemsRoundTrip(squares: seq<Square>, rest: string)
    requires |squares| > 0
    ensures ReadSquareItems(CommaJoin(SquareParts(squares)) + "]" + rest) == Some((squares, rest))
  {
    var parts := SquareParts(squares);
    var s := CommaJoin(parts) + "]" + rest;
    JoinShape(parts, rest);
    if |squares| == 1 {
      SquareRoundTrip(squares[0], "]" + rest);
      assert ReadSquare(s) == Some((squares[0], "]" + rest));
      assert !Next("]" + rest, ',');
      ExpectLiteral("]", rest);
      assert ReadSquareItems(s) == Some(([squares[0]], rest));
      assert [squares[0]] == squares;
    } else {
      assert parts[1..] == SquareParts(squares[1..]);
      var more := CommaJoin(SquareParts(squares[1..])) + "]" + rest;
      SquareRoundTrip(squares[0], "," + more);
      assert ReadSquare(s) == Some((squares[0], "," + more));
      assert ("," + more)[1..] == more;
      SquareItemsRoundTrip(squares[1..], rest);
      assert Next("," + more, ',');
      assert ReadSquareItems(s) == Some(([squares[0]] + squares[1..], rest));
      assert [squares[0]] + squares[1..] == squares;
    }
  }

  lemma SquareListRoundTrip(squares: seq<Square>, rest: string)
    ensures ReadSquareList(CommaJoin(SquareParts(squares)) + "]" + rest) == Some((squares, rest))
  {
    if |squares| == 0 {
      assert CommaJoin(SquareParts(squares)) + "]" + rest == "]" + rest;
    } else {
      SquareItemsRoundTrip(squares, rest);
      var first := SquareJson(squares[0]);
      var s := CommaJoin(SquareParts(squares)) + "]" + rest;
      assert s[0] == first[0] == '{';
    }
  }

  /**
   * `board_to_json` can be read back: the id (written unescaped, so it must
   * hold no quote or backslash) and every square's text and mark.
   */
  lemma BoardRoundTrip(b: Board)
    requires Plain(b.id)
    ensures ReadBoard(BoardJson(b)) == Some((b.id, b.squares))
  {
    var open, key := "{\"id\":\"", ",\"squares\":[";
    var items := CommaJoin(SquareParts(b.squares));
    var list := items + "]" + "}";
    var tail := key + list;
    var afterOpen := b.id + "\"" + tail;
    BoardJsonPieces(b);
    assert BoardJson(b) == open + afterOpen;
    ExpectLiteral(open, afterOpen);
    PlainRoundTrip(b.id, tail);
    ExpectLiteral(key, list);
    SquareListRoundTrip(b.squares, "}");
    ExpectLiteral("}", "");
    assert "}" + "" == "}";
  }

  /** The board JSON cut where `ReadBoard` reads it: the opening, the id, the closing quote, the key and the list. */
  lemma BoardJsonPieces(b: Board)
    ensures BoardJson(b) == "{\"id\":\"" + (b.id + "\"" + (",\"squares\":[" + (CommaJoin(SquareParts(b.squares)) + "]" + "}")))
  {
    BoardRegroup("{\"id\":\"", b.id, "\"", ",\"squares\":[", CommaJoin(SquareParts(b.squares)), "]", "}");
  }

  /** The regrouping of `BoardJson` with its pieces left abstract. */
  lemma BoardRegroup(o: string, id: string, q: string, k: string, j: string, c1: string, c2: string)
    ensures o + id + q + k + j + c1 + c2 == o + (id + q + (k + (j + c1 + c2)))
  {
  }

  lemma QuotedRoundTrip(t: string, rest: string)
    ensures ReadQuoted(QuotedJson(t) + rest) == Some((t, rest))
  {
    assert QuotedJson(t) + rest == "\"" + (Escaped(t) + "\"" + rest);
    ExpectLiteral("\"", Escaped(t) + "\"" + rest);
    EscapedRoundTrip(t, rest);
  }

  lemma {:induction false} StringItemsRoundTrip(texts: seq<string>, rest: string)
    requires |texts| > 0
    ensures ReadStringItems(CommaJoin(QuotedParts(texts)) + "]" + rest) == Some((texts, rest))
  {
    var parts := QuotedParts(texts);
    var s := CommaJoin(parts) + "]" + rest;
    JoinShape(parts, rest);
    if |texts| == 1 {
      QuotedRoundTrip(texts[0], "]" + rest);
      assert ReadQuoted(s) == Some((texts[0], "]" + rest));
      assert !Next("]" + rest, ',');
      ExpectLiteral("]", rest);
      assert ReadStringItems(s) == Some(([texts[0]], rest));
      assert [texts[0]] == texts;
    } else {
      assert parts[1..] == QuotedParts(texts[1..]);
      var more := CommaJoin(QuotedParts(texts[1..])) + "]" + rest;
      QuotedRoundTrip(texts[0], "," + more);
      assert ReadQuoted(s) == Some((texts[0], "," + more));
      assert ("," + more)[1..] == more;
      StringItemsRoundTrip(texts[1..], rest);
      assert Next("," + more, ',');
      assert ReadStringItems(s) == Some(([texts[0]] + texts[1..], rest));
      assert [texts[0]] + texts[1..] == texts;
    }
  }

  /** A list of phrases written as the server writes `"list":[…]` reads back unchanged. */
  lemma StringListRoundTrip(texts: seq<string>, rest: string)
    ensures ReadStringList(CommaJoin(QuotedParts(texts)) + "]" + rest) == Some((texts, rest))
  {
    if |texts| == 0 {
      assert CommaJoin(QuotedParts(texts)) + "]" + rest == "]" + rest;
    } else {
      StringItemsRoundTrip(texts, rest);
      var s := CommaJoin(QuotedParts(texts)) + "]" + rest;
      assert s[0] == QuotedJson(texts[0])[0] == '"';
    }
  }

  /** Leaderboard entries whose unescaped fields are safe to write raw. */
  predicate PlainEntry(e: LeaderboardEntry)
  {
    Plain(e.timestamp) && Plain(e.boardId)
  }

  lemma Assoc(p: string, q: string, r: string)
    ensures p + q + r == p + (q + r)
  {
  }

  /** A closing quote and the next key: how the writer's pieces meet the reader's. */
  lemma QuoteThenKey(key: string, rest: string)
    ensures "\"," + (key + rest) == "\"" + ("," + key + rest)
  {
    Assoc("\"", ",", key + rest);
    Assoc(",", key, rest);
  }

  /** The regrouping of `EntryJson` with its pieces left abstract. */
  lemma EntryRegroup(h: string, u: string, q: string, k1: string, t: string, k2: string, b: string,
                     k3: string, l: string, c1: string, c2: string, rest: string)
    ensures h + u + q + k1 + t + q + k2 + b + q + k3 + l + c1 + c2 + rest
      == h + (u + q + (k1 + (t + q + (k2 + (b + q + (k3 + (l + c1 + (c2 + rest))))))))
  {
  }

  lemma EntryJsonShape(e: LeaderboardEntry, rest: string, a: string, b: string, c: string, d: string)
    requires d == ",\"winning_squares\":[" + (CommaJoin(QuotedParts(e.winningSquares)) + "]" + ("}" + rest))
    requires c == ",\"board_id\":\"" + (e.boardId + "\"" + d)
    requires b == ",\"timestamp\":\"" + (e.timestamp + "\"" + c)
    requires a == Escaped(e.username) + "\"" + b
    ensures EntryJson(e) + rest == "{\"username\":\"" + a
  {
    EntryRegroup("{\"username\":\"", Escaped(e.username), "\"", ",\"timestamp\":\"", e.timestamp,
      ",\"board_id\":\"", e.boardId, ",\"winning_squares\":[", CommaJoin(QuotedParts(e.winningSquares)),
      "]", "}", rest);
  }

  lemma EntryRoundTrip(e: LeaderboardEntry, rest: string)
    requires PlainEntry(e)
    ensures ReadEntry(EntryJson(e) + rest) == Some((e, rest))
  {
    var afterList := "}" + rest;
    var list := CommaJoin(QuotedParts(e.winningSquares)) + "]" + afterList;
    var d := ",\"winning_squares\":[" + list;
    var c := ",\"board_id\":\"" + (e.boardId + "\"" + d);
    var b := ",\"timestamp\":\"" + (e.timestamp + "\"" + c);
    var a := Escaped(e.username) + "\"" + b;
    EntryJsonShape(e, rest, a, b, c, d);
    var s := EntryJson(e) + rest;
    ExpectLiteral("{\"username\":\"", a);
    assert Expect(s, "{\"username\":\"") == Some(a);
    EscapedRoundTrip(e.username, b);
    assert ReadString(a) == Some((e.username, b));
    ExpectLiteral(",\"timestamp\":\"", e.timestamp + "\"" + c);
    PlainRoundTrip(e.timestamp, c);
    ExpectLiteral(",\"board_id\":\"", e.boardId + "\"" + d);
    PlainRoundTrip(e.boardId, d);
    ExpectLiteral(",\"winning_squares\":[", list);
    StringListRoundTrip(e.winningSquares, afterList);
    ExpectLiteral("}", rest);
  }

  lemma {:induction false} EntryItemsRoundTrip(entries: seq<LeaderboardEntry>, rest: string)
    requires |entries| > 0 && forall i :: 0 <= i < |entries| ==> PlainEntry(entries[i])
    ensures ReadEntryItems(CommaJoin(EntryParts(entries)) + "]" + rest) == Some((entries, rest))
  {
    var parts := EntryParts(entries);
    var s := CommaJoin(parts) + "]" + rest;
    JoinShape(parts, rest);
    if |entries| == 1 {
      EntryRoundTrip(entries[0], "]" + rest);
      EntryItemsLast(s, entries[0], rest);
      HeadTail(entries);
    } else {
      var tail := entries[1..];
      assert parts[1..] == EntryParts(tail);
      var more := CommaJoin(EntryParts(tail)) + "]" + rest;
      EntryRoundTrip(entries[0], "," + more);
      forall i | 0 <= i < |tail|
        ensures PlainEntry(tail[i])
      {
        assert tail[i] == entries[i + 1];
      }
      EntryItemsRoundTrip(tail, rest);
      EntryItemsNext(s, entries[0], more, tail, rest);
      HeadTail(entries);
    }
  }

  /** The last item of the list: an entry, then `]`. */
  lemma EntryItemsLast(s: string, e: LeaderboardEntry, rest: string)
    requires ReadEntry(s) == Some((e, "]" + rest))
    ensures ReadEntryItems(s) == Some(([e], rest))
  {
    assert !Next("]" + rest, ',');
    ExpectLiteral("]", rest);
  }

  /** An item followed by a comma: the entry, then the rest of the list. */
  lemma EntryItemsNext(s: string, e: LeaderboardEntry, more: string, es: seq<LeaderboardEntry>, rest: string)
    requires ReadEntry(s) == Some((e, "," + more))
    requires ReadEntryItems(more) == Some((es, rest))
    ensures ReadEntryItems(s) == Some(([e] + es, rest))
  {
    assert Next("," + more, ',');
    assert ("," + more)[1..] == more;
  }

  /**
   * `leaderboard_to_json` can be read back into the very log it was written
   * from, oldest entry first.
   */
  lemma LeaderboardRoundTrip(entries: seq<LeaderboardEntry>)
    requires forall i :: 0 <= i < |entries| ==> PlainEntry(entries[i])
    ensures ReadLeaderboard(LeaderboardJson(entries)) == Some(entries)
  {
    var parts := EntryParts(entries);
    var body := CommaJoin(parts) + "]" + "";
    assert CommaJoin(parts) + "]" + "" == CommaJoin(parts) + "]";
    Assoc("[", CommaJoin(parts), "]");
    assert LeaderboardJson(entries) == "[" + body;
    ExpectLiteral("[", body);
    if |entries| == 0 {
      assert body == "]";
      assert Next(body, ']') && body[1..] == "";
    } else {
      EntryItemsRoundTrip(entries, "");
      JoinShape(parts, "");
      EntryOpensWithBrace(entries[0]);
      assert body[0] == parts[0][0];
      assert !Next(body, ']');
    }
  }

  lemma EntryOpensWithBrace(e: LeaderboardEntry)
    ensures Next(EntryJson(e), '{')
  {
  }
}
