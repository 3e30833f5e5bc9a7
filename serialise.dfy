/**
 * The JSON the server writes: `board_to_json`, `leaderboard_to_json` and the
 * body of a `/api/mark_square` reply. Texts and usernames go through
 * `json_escape`; the board id, the timestamp and the entry's board id are
 * written as they are. Each writer is paired with a reader that takes the
 * text back apart.
 */
module Serialise {
  import opened Wrappers
  import opened Text
  import opened Json
  import opened Model

  function BoolJson(b: bool): string
  {
    if b then "true" else "false"
  }

  function SquareJson(sq: Square): string
  {
    "{\"text\":\"" + Escaped(sq.text) + "\"," + "\"marked\":" + BoolJson(sq.marked) + "}"
  }

  function SquareParts(squares: seq<Square>): (r: seq<string>)
    ensures |r| == |squares| && forall i :: 0 <= i < |r| ==> r[i] == SquareJson(squares[i])
  {
    seq(|squares|, i requires 0 <= i < |squares| => SquareJson(squares[i]))
  }

  /** What `board_to_json(board)` returns. */
  function BoardJson(b: Board): string
  {
    "{\"id\":\"" + b.id + "\"" + ",\"squares\":[" + CommaJoin(SquareParts(b.squares)) + "]" + "}"
  }

  function QuotedJson(s: string): string
  {
    "\"" + Escaped(s) + "\""
  }

  function QuotedParts(texts: seq<string>): (r: seq<string>)
    ensures |r| == |texts| && forall i :: 0 <= i < |r| ==> r[i] == QuotedJson(texts[i])
  {
    seq(|texts|, i requires 0 <= i < |texts| => QuotedJson(texts[i]))
  }

  function EntryJson(e: LeaderboardEntry): string
  {
    "{\"username\":\"" + Escaped(e.username) + "\""
      + ",\"timestamp\":\"" + e.timestamp + "\""
      + ",\"board_id\":\"" + e.boardId + "\""
      + ",\"winning_squares\":[" + CommaJoin(QuotedParts(e.winningSquares)) + "]" + "}"
  }

  function EntryParts(entries: seq<LeaderboardEntry>): (r: seq<string>)
    ensures |r| == |entries| && forall i :: 0 <= i < |r| ==> r[i] == EntryJson(entries[i])
  {
    seq(|entries|, i requires 0 <= i < |entries| => EntryJson(entries[i]))
  }

  /** What `leaderboard_to_json()` returns for the log `entries`. */
  function LeaderboardJson(entries: seq<LeaderboardEntry>): string
  {
    "[" + CommaJoin(EntryParts(entries)) + "]"
  }

  function IndexParts(indices: seq<int>): (r: seq<string>)
    requires forall i :: 0 <= i < |indices| ==> indices[i] >= 0
    ensures |r| == |indices| && forall i :: 0 <= i < |r| ==> r[i] == NatToString(indices[i])
  {
    seq(|indices|, i requires 0 <= i < |indices| => NatToString(indices[i]))
  }

  predicate ValidIndices(squares: seq<Square>, indices: seq<int>)
  {
    forall i :: 0 <= i < |indices| ==> 0 <= indices[i] < |squares|
  }

  /** The phrases on the squares at `indices`, in that order. */
  function TextsAt(squares: seq<Square>, indices: seq<int>): (r: seq<string>)
    requires ValidIndices(squares, indices)
    ensures |r| == |indices| && forall i :: 0 <= i < |r| ==> r[i] == squares[indices[i]].text
  {
    seq(|indices|, i requires 0 <= i < |indices| => squares[indices[i]].text)
  }

  /** The optional part of a mark reply that follows `"bingo":…`. */
  function MarkInfoJson(b: Board, isBingo: bool, indices: seq<int>): string
    requires ValidIndices(b.squares, indices)
  {
    if !isBingo then ""
    else if b.bingoAchieved then ",\"info\":\"bingod\""
    else
      ",\"info\":[\"bingo\",0]," + "\"winning_squares\":{\"indices\":[" + CommaJoin(IndexParts(indices))
      + "],\"list\":[" + CommaJoin(QuotedParts(TextsAt(b.squares, indices))) + "]}"
  }

  /** The body of a successful `/api/mark_square` reply. */
  function MarkJson(b: Board, isBingo: bool, indices: seq<int>): string
    requires ValidIndices(b.squares, indices)
  {
    "{\"board\":" + BoardJson(b) + "," + "\"bingo\":" + BoolJson(isBingo) + MarkInfoJson(b, isBingo, indices) + "}"
  }

  /** One more part of a comma-separated list, as each writer loop adds it. */
  lemma JoinStep(parts: seq<string>, i: nat)
    requires i < |parts|
    ensures CommaJoin(parts[..i + 1]) == CommaJoin(parts[..i]) + (if i > 0 then "," else "") + parts[i]
  {
    assert parts[..i + 1] == parts[..i] + [parts[i]];
    CommaJoinSnoc(parts[..i], parts[i]);
  }

  lemma Append3(a: string, b: string, c: string, d: string)
    ensures a + b + c + d == a + (b + c + d)
  {
  }

  /** `board_to_json`: writes the id, then each square, separated by commas. */
  method BoardToJson(board: Board) returns (json: string)
    ensures json == BoardJson(board)
  {
    ghost var parts := SquareParts(board.squares);
    var head := "{\"id\":\"" + board.id + "\"" + ",\"squares\":[";
    json := head;
    for i := 0 to |board.squares|
      invariant json == head + CommaJoin(parts[..i])
    {
      if i > 0 {
        json := json + ",";
      }
      var text := JsonEscape(board.squares[i].text);
      var item := "{\"text\":\"" + text + "\"," + "\"marked\":"
        + (if board.squares[i].marked then "true" else "false") + "}";
      assert item == parts[i];
      JoinStep(parts, i);
      Append3(head, CommaJoin(parts[..i]), if i > 0 then "," else "", item);
      json := json + item;
    }
    assert parts[..|board.squares|] == parts;
    json := json + "]" + "}";
  }

  /** The inner loop of `leaderboard_to_json`: one entry's list of winning phrases. */
  method WinningListToJson(texts: seq<string>) returns (json: string)
    ensures json == CommaJoin(QuotedParts(texts))
  {
    ghost var parts := QuotedParts(texts);
    json := "";
    for j := 0 to |texts|
      invariant json == CommaJoin(parts[..j])
    {
      if j > 0 {
        json := json + ",";
      }
      var text := JsonEscape(texts[j]);
      var item := "\"" + text + "\"";
      assert item == parts[j];
      JoinStep(parts, j);
      Append3("", CommaJoin(parts[..j]), if j > 0 then "," else "", item);
      json := json + item;
    }
    assert parts[..|texts|] == parts;
  }

  /** `leaderboard_to_json`: writes every entry of the log in order. */
  method LeaderboardToJson(entries: seq<LeaderboardEntry>) returns (json: string)
    ensures json == LeaderboardJson(entries)
  {
    ghost var parts := EntryParts(entries);
    json := "[";
    for i := 0 to |entries|
      invariant json == "[" + CommaJoin(parts[..i])
    {
      if i > 0 {
        json := json + ",";
      }
      var entry := entries[i];
      var name := JsonEscape(entry.username);
      var list := WinningListToJson(entry.winningSquares);
      var item := "{\"username\":\"" + name + "\""
        + ",\"timestamp\":\"" + entry.timestamp + "\""
        + ",\"board_id\":\"" + entry.boardId + "\""
        + ",\"winning_squares\":[" + list + "]" + "}";
      assert item == parts[i];
      JoinStep(parts, i);
      Append3("[", CommaJoin(parts[..i]), if i > 0 then "," else "", item);
      json := json + item;
    }
    assert parts[..|entries|] == parts;
    json := json + "]";
  }

  /** The loop writing `"indices":[…]`: the winning indices in decimal. */
  method IndexListToJson(indices: seq<int>) returns (json: string)
    requires forall i :: 0 <= i < |indices| ==> indices[i] >= 0
    ensures json == CommaJoin(IndexParts(indices))
  {
    ghost var parts := IndexParts(indices);
    json := "";
    for i := 0 to |indices|
      invariant json == CommaJoin(parts[..i])
    {
      if i > 0 {
        json := json + ",";
      }
      JoinStep(parts, i);
      json := json + NatToString(indices[i]);
    }
    assert parts[..|indices|] == parts;
  }

  /** The loop writing `"list":[…]`: the escaped phrase of each winning square. */
  method PhraseListToJson(squares: seq<Square>, indices: seq<int>) returns (json: string)
    requires ValidIndices(squares, indices)
    ensures json == CommaJoin(QuotedParts(TextsAt(squares, indices)))
  {
    ghost var parts := QuotedParts(TextsAt(squares, indices));
    json := "";
    for i := 0 to |indices|
      invariant json == CommaJoin(parts[..i])
    {
      if i > 0 {
        json := json + ",";
      }
      var text := JsonEscape(squares[indices[i]].text);
      var item := "\"" + text + "\"";
      assert item == parts[i];
      JoinStep(parts, i);
      Append3("", CommaJoin(parts[..i]), if i > 0 then "," else "", item);
      json := json + item;
    }
    assert parts[..|indices|] == parts;
  }

  /** The reply body `/api/mark_square` writes after toggling and checking the board. */
  method MarkToJson(board: Board, isBingo: bool, winningIndices: seq<int>) returns (json: string)
    requires ValidIndices(board.squares, winningIndices)
    ensures json == MarkJson(board, isBingo, winningIndices)
  {
    var boardJson := BoardToJson(board);
    var info := "";
    if isBingo {
      if board.bingoAchieved {
        info := ",\"info\":\"bingod\"";
      } else {
        var indices := IndexListToJson(winningIndices);
        var list := PhraseListToJson(board.squares, winningIndices);
        info := ",\"info\":[\"bingo\",0]," + "\"winning_squares\":{\"indices\":[" + indices
          + "],\"list\":[" + list + "]}";
      }
    }
    assert info == MarkInfoJson(board, isBingo, winningIndices);
    json := "{\"board\":" + boardJson + "," + "\"bingo\":" + (if isBingo then "true" else "false") + info + "}";
  }
}
