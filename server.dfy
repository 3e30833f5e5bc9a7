/**
 * The server's mutable globals, `user_boards` and `leaderboard`, as the
 * fields of one object, with one method per request handler. Each method
 * changes the fields as the corresponding function of `Handlers` says.
 */
module Server {
  import opened Wrappers
  import opened Model
  import Text
  import Serialise
  import Bodies
  import Request
  import WinDetector
  import BoardGen
  import Censor
  import opened Handlers

  /** The reset loop: every square's mark set to false, in place. */
  method ClearMarks(squares: seq<Square>) returns (cleared: seq<Square>)
    ensures cleared == Unmarked(squares)
  {
    cleared := squares;
    for i := 0 to |squares|
      invariant |cleared| == |squares|
      invariant forall j :: 0 <= j < i ==> cleared[j] == Square(squares[j].text, false)
      invariant forall j :: i <= j < |squares| ==> cleared[j] == squares[j]
    {
      cleared := cleared[i := Square(cleared[i].text, false)];
    }
  }

  /** The reply to an accepted mark: `check_bingo` on the flipped board, then the JSON writer. */
  method ReportMark(board: Board) returns (reply: Reply)
    requires |board.squares| == BoardSize
    ensures var marks := Marks(board.squares);
      reply == Http(200, JsonType, Serialise.MarkJson(board, WinDetector.HasBingo(marks), WinningIndices(marks)))
  {
    var isBingo, winning := WinDetector.CheckBingo(board.squares, []);
    assert winning == WinningIndices(Marks(board.squares));
    var json := Serialise.MarkToJson(board, isBingo, winning);
    reply := Http(200, JsonType, json);
  }

  class BingoServer {
    var userBoards: map<string, Board>
    var leaderboard: seq<LeaderboardEntry>
    /** The phrase pool and the blocked words, loaded once at start-up. */
    const phrases: seq<string>
    const blockedWords: seq<string>

    function Current(): State
      reads this
    {
      State(userBoards, leaderboard)
    }

    ghost predicate Valid()
      reads this
    {
      |phrases| > 0 && ValidState(Current())
    }

    /**
     * `load_phrases` and `load_blocked_words` on the two files' lines
     * (`None` for a file that cannot be opened), with no board and an empty
     * leaderboard.
     */
    constructor (phraseFile: Option<seq<string>>, blockedFile: Option<seq<string>>)
      ensures Valid() && userBoards == map[] && leaderboard == []
      ensures phrases == BoardGen.LoadPhrasesFixed(phraseFile)
      ensures blockedWords == BoardGen.LoadBlockedWords(blockedFile)
    {
      phrases := BoardGen.LoadPhrasesFixed(phraseFile);
      blockedWords := BoardGen.LoadBlockedWords(blockedFile);
      userBoards := map[];
      leaderboard := [];
    }

    /** A fresh board for `ip`, from the request's shuffled pool and draws. */
    method NewBoardFor(ip: string, env: Env)
      requires Valid() && ValidEnv(env) && multiset(env.shuffled) == multiset(phrases)
      modifies this
      ensures Valid() && userBoards == old(userBoards)[ip := Fresh(env)] && leaderboard == old(leaderboard)
    {
      var b := BoardGen.GenerateBoard(phrases, env.shuffled, env.draws, env.date);
      userBoards := userBoards[ip := b];
    }

    /** The `NewBoard` / `reset` branches that pick the client's board. */
    method SelectBoardFor(ip: string, query: string, env: Env)
      requires Valid() && ValidEnv(env) && multiset(env.shuffled) == multiset(phrases)
      modifies this
      ensures Valid() && leaderboard == old(leaderboard)
      ensures userBoards == old(userBoards)[ip := SelectBoard(old(userBoards), ip, ModeOf(query), env)]
    {
      var newBoard := Text.Contains(query, "NewBoard=true");
      var reset := Text.Contains(query, "reset=true");
      if newBoard {
        NewBoardFor(ip, env);
      } else if reset {
        if ip in userBoards {
          var cleared := ClearMarks(userBoards[ip].squares);
          userBoards := userBoards[ip := userBoards[ip].(squares := cleared)];
        } else {
          NewBoardFor(ip, env);
        }
      } else if ip !in userBoards {
        NewBoardFor(ip, env);
      } else {
        assert userBoards == userBoards[ip := userBoards[ip]];
      }
    }

    /** `GET /api/board/`: select or create the client's board, stamp its date, and send it. */
    method BoardRequest(ip: string, query: string, env: Env) returns (reply: Reply)
      requires Valid() && ValidEnv(env) && multiset(env.shuffled) == multiset(phrases)
      modifies this
      ensures Valid() && Current() == BoardState(old(Current()), ip, query, env)
      ensures reply == Http(200, JsonType, BoardReplyJson(BoardAfter(old(Current()), ip, query, env)))
    {
      ghost var before := Current();
      SelectBoardFor(ip, query, env);
      var board := userBoards[ip].(lastAccessedDate := env.date);
      assert board == BoardAfter(before, ip, query, env);
      assert userBoards[ip := board] == before.boards[ip := board];
      userBoards := userBoards[ip := board];
      assert Current() == State(before.boards[ip := board], before.leaderboard);
      var json := Serialise.BoardToJson(board);
      reply := Http(200, JsonType, "{\"board\":" + json + "}");
    }

    /** The flip itself: `board.squares[index].marked = !board.squares[index].marked`. */
    method FlipSquare(ip: string, index: nat)
      requires Valid() && ip in userBoards && index < BoardSize
      modifies this
      ensures Valid() && leaderboard == old(leaderboard)
      ensures userBoards == old(userBoards)[ip := old(userBoards)[ip].(squares := Toggle(old(userBoards)[ip].squares, index))]
    {
      var board := userBoards[ip];
      var squares := board.squares;
      squares := squares[index := Square(squares[index].text, !squares[index].marked)];
      userBoards := userBoards[ip := board.(squares := squares)];
    }

    /** `POST /api/mark_square`: flip one square of the client's board and report any win. */
    method MarkSquare(ip: string, body: string) returns (reply: Reply)
      requires Valid()
      modifies this
      ensures Valid() && Current() == MarkState(old(Current()), ip, body)
      ensures reply == MarkReply(old(Current()), ip, body)
    {
      var index := Bodies.ExtractIndex(body);
      if index < 0 || index >= 25 || ip !in userBoards {
        reply := Http(400, JsonType, InvalidRequest);
        return;
      }
      ghost var before := Current();
      assert MarkAccepted(before, ip, body);
      FlipSquare(ip, index);
      assert userBoards == before.boards[ip := Marked(before, ip, body)];
      reply := ReportMark(userBoards[ip]);
    }

    /** `POST /api/submit_bingo`: log the win, set the client's latch, and announce it. */
    method SubmitBingo(ip: string, body: string, time: string) returns (reply: Reply, broadcast: Option<string>)
      requires Valid() && ClockTime(time)
      modifies this
      ensures Valid() && Current() == SubmitState(old(Current()), ip, body, blockedWords, time)
      ensures reply == SubmitReply(body)
      ensures broadcast == (if Bodies.UsernameOf(body).Some? then Some(LeaderboardUpdate) else None)
    {
      SubmitKeepsValid(Current(), ip, body, blockedWords, time);
      var name := Bodies.UsernameOf(body);
      if name.None? {
        reply := Http(400, JsonType, MissingUsername);
        broadcast := None;
        return;
      }
      var username := Censor.CensorText(name.value, blockedWords);
      if ip in userBoards {
        userBoards := userBoards[ip := userBoards[ip].(bingoAchieved := true)];
      }
      var boardId := if ip in userBoards then userBoards[ip].id else "";
      var squares := Bodies.ExtractWinningSquares(body);
      leaderboard := leaderboard + [LeaderboardEntry(username, time, boardId, squares)];
      broadcast := Some(LeaderboardUpdate);
      reply := Http(201, JsonType, Success);
    }

    /** `GET /api/leaderboard`: the whole log, oldest entry first. */
    method LeaderboardRequest() returns (reply: Reply)
      requires Valid()
      ensures reply == Http(200, JsonType, Serialise.LeaderboardJson(leaderboard))
    {
      var json := Serialise.LeaderboardToJson(leaderboard);
      reply := Http(200, JsonType, json);
    }

    /** The routing of `handle_client` for the parsed request `p`. */
    method Dispatch(ip: string, p: Request.Parsed, files: map<string, string>, env: Env)
      returns (reply: Reply, broadcast: Option<string>)
      requires Valid() && ValidEnv(env) && multiset(env.shuffled) == multiset(phrases)
      modifies this
      ensures Valid() && Current() == NextState(old(Current()), blockedWords, ip, p, env)
      ensures reply == ReplyTo(old(Current()), files, ip, p, env)
      ensures broadcast == BroadcastOf(p)
    {
      broadcast := None;
      match Request.RouteOf(p.verb, p.path)
      case IndexPage =>
        reply := Http(200, "text/html", ReadFile(files, IndexFile));
      case Asset(file, contentType) =>
        var content := ReadFile(files, file);
        reply := Http(if content == "" then 404 else 200, contentType, content);
      case BoardRoute =>
        reply := BoardRequest(ip, p.query, env);
      case MarkRoute =>
        reply := MarkSquare(ip, p.body);
      case SubmitRoute =>
        reply, broadcast := SubmitBingo(ip, p.body, env.time);
      case LeaderboardRoute =>
        reply := LeaderboardRequest();
      case StreamRoute =>
        reply := EventStream;
      case NotFound =>
        reply := Http(404, "text/plain", "Not Found");
    }

    /**
     * `handle_client` for one connection from `ip`: `incoming` is what
     * `recv` would return, `files` the readable files under `frontend/`.
     */
    method HandleClient(ip: string, incoming: string, files: map<string, string>, env: Env)
      returns (sent: Option<Reply>, broadcast: Option<string>)
      requires Valid() && ValidEnv(env) && multiset(env.shuffled) == multiset(phrases)
      modifies this
      ensures Valid()
      ensures var r := Serve(old(Current()), blockedWords, files, ip, incoming, env);
        (r.None? ==> sent == None && broadcast == None && Current() == old(Current()))
        && (r.Some? ==> sent == Some(r.value.reply) && broadcast == r.value.broadcast && Current() == r.value.state)
    {
      if |incoming| == 0 {
        return None, None;
      }
      var request := if |incoming| <= MaxRequest then incoming else incoming[..MaxRequest];
      assert request == Received(incoming);
      var p := Request.ParseRequest(request);
      var reply;
      reply, broadcast := Dispatch(ip, p, files, env);
      sent := Some(reply);
    }
  }
}
