/**
 * The request handlers of the bingo server as functions of the server's
 * state: the per-client boards and the leaderboard. Each handler returns
 * the new state, the reply and, for a submitted win, the event pushed to
 * the leaderboard stream.
 */
module Handlers {
  import opened Wrappers
  import opened Model
  import Text
  import Json
  import Serialise
  import Decode
  import Bodies
  import Request
  import WinDetector
  import BoardGen
  import Censor

  /** `user_boards` keyed by client address, and the `leaderboard` log. */
  datatype State = State(boards: map<string, Board>, leaderboard: seq<LeaderboardEntry>)

  /** What the handler sends: one HTTP response, or the headers that open an event stream. */
  datatype Reply =
    | Http(status: nat, contentType: string, body: string)
    | EventStream

  datatype Outcome = Outcome(state: State, reply: Reply, broadcast: Option<string>)

  /**
   * What a request may draw on besides the state: the shuffled phrase pool
   * and the 31 hexadecimal draws a new board would use, and the clock's
   * date and time of day.
   */
  datatype Env = Env(shuffled: seq<string>, draws: seq<int>, date: string, time: string)

  /** `%H:%M:%S`: two digits, a colon, two digits, a colon, two digits. */
  predicate ClockTime(t: string)
  {
    |t| == 8 && t[2] == ':' && t[5] == ':'
    && forall k :: 0 <= k < 8 && k != 2 && k != 5 ==> Text.IsDigit(t[k])
  }

  predicate ValidEnv(env: Env)
  {
    |env.shuffled| > 0 && BoardGen.ValidDraws(env.draws) && ClockTime(env.time)
  }

  /**
   * What every reachable state satisfies: each board has 25 squares and a
   * UUID, and every leaderboard entry has a timestamp and a board id that
   * need no escaping.
   */
  predicate ValidState(st: State)
  {
    (forall ip :: ip in st.boards ==> |st.boards[ip].squares| == BoardSize && BoardGen.IsUuid(st.boards[ip].id))
    && forall i :: 0 <= i < |st.leaderboard| ==> Decode.PlainEntry(st.leaderboard[i])
  }

  lemma ClockTimeIsPlain(t: string)
    requires ClockTime(t)
    ensures Json.Plain(t)
  {
    forall k | 0 <= k < |t|
      ensures t[k] != '"' && t[k] != '\\'
    {
      if k != 2 && k != 5 {
        assert Text.IsDigit(t[k]);
      }
    }
  }

  const JsonType := "application/json"

  // ---------------------------------------------------------------- /api/board/

  /** Which board a `/api/board/` request asks for. */
  datatype BoardMode = NewBoard | ResetBoard | KeepBoard

  /** `NewBoard=true` anywhere in the query wins over `reset=true`. */
  function ModeOf(query: string): (m: BoardMode)
    ensures m == NewBoard <==> Text.Contains(query, "NewBoard=true")
    ensures m == ResetBoard <==> !Text.Contains(query, "NewBoard=true") && Text.Contains(query, "reset=true")
  {
    if Text.Contains(query, "NewBoard=true") then NewBoard
    else if Text.Contains(query, "reset=true") then ResetBoard
    else KeepBoard
  }

  /** The squares with every mark cleared. */
  function Unmarked(squares: seq<Square>): (r: seq<Square>)
    ensures |r| == |squares|
    ensures Texts(r) == Texts(squares)
    ensures forall i :: 0 <= i < |r| ==> !r[i].marked
  {
    seq(|squares|, i requires 0 <= i < |squares| => Square(squares[i].text, false))
  }

  /** The board `generate_board` makes from the request's draws. */
  function Fresh(env: Env): Board
    requires ValidEnv(env)
  {
    BoardGen.FreshBoard(env.shuffled, env.draws, env.date)
  }

  /** The client's board once the mode has been applied, before its date is stamped. */
  function SelectBoard(boards: map<string, Board>, ip: string, mode: BoardMode, env: Env): Board
    requires ValidEnv(env)
  {
    match mode
    case NewBoard => Fresh(env)
    case ResetBoard =>
      if ip in boards then boards[ip].(squares := Unmarked(boards[ip].squares)) else Fresh(env)
    case KeepBoard => if ip in boards then boards[ip] else Fresh(env)
  }

  function BoardReplyJson(b: Board): string
  {
    "{\"board\":" + Serialise.BoardJson(b) + "}"
  }

  /** The client's board after a `/api/board/` request with query string `query`: date stamped. */
  function BoardAfter(st: State, ip: string, query: string, env: Env): Board
    requires ValidEnv(env)
  {
    SelectBoard(st.boards, ip, ModeOf(query), env).(lastAccessedDate := env.date)
  }

  /** The state after a `/api/board/` request: only the caller's board is set, the log is untouched. */
  function BoardState(st: State, ip: string, query: string, env: Env): (r: State)
    requires ValidEnv(env)
    ensures ip in r.boards && r.boards[ip].lastAccessedDate == env.date
    ensures forall other :: other != ip ==>
      (other in r.boards <==> other in st.boards)
      && (other in st.boards ==> r.boards[other] == st.boards[other])
    ensures r.leaderboard == st.leaderboard
  {
    State(st.boards[ip := BoardAfter(st, ip, query, env)], st.leaderboard)
  }

  /**
   * Unless a new board is asked for, a client that has a board keeps its
   * identity, its phrases and its win latch; `reset=true` clears the marks
   * and otherwise the marks are kept as well.
   */
  lemma BoardStepKeepsBoard(st: State, ip: string, query: string, env: Env)
    requires ValidEnv(env) && ip in st.boards && ModeOf(query) != NewBoard
    ensures var b := BoardState(st, ip, query, env).boards[ip];
      var old_ := st.boards[ip];
      b.id == old_.id && Texts(b.squares) == Texts(old_.squares) && b.bingoAchieved == old_.bingoAchieved
      && (ModeOf(query) == ResetBoard ==> forall i :: 0 <= i < |b.squares| ==> !b.squares[i].marked)
      && (ModeOf(query) == KeepBoard ==> b.squares == old_.squares)
  {
  }

  /**
   * `NewBoard=true`, or a client without a board, gets a fresh one: a UUID,
   * no win yet, and 25 unmarked squares read cyclically from the shuffled
   * pool, each a phrase of the pool.
   */
  lemma BoardStepFresh(st: State, ip: string, query: string, env: Env, phrases: seq<string>)
    requires ValidEnv(env) && multiset(env.shuffled) == multiset(phrases)
    requires ModeOf(query) == NewBoard || ip !in st.boards
    ensures var b := BoardState(st, ip, query, env).boards[ip];
      BoardGen.IsUuid(b.id) && !b.bingoAchieved && |b.squares| == BoardSize
      && forall i :: 0 <= i < BoardSize ==>
        !b.squares[i].marked && b.squares[i].text == env.shuffled[i % |env.shuffled|]
        && b.squares[i].text in phrases
  {
    var b := BoardState(st, ip, query, env).boards[ip];
    forall i | 0 <= i < BoardSize
      ensures b.squares[i].text in phrases
    {
      assert b.squares[i].text in multiset(env.shuffled);
    }
  }

  /** The board in the reply reads back as the client's id and squares. */
  lemma BoardReplyReadsBack(b: Board)
    requires BoardGen.IsUuid(b.id)
    ensures BoardReplyJson(b) == "{\"board\":" + Serialise.BoardJson(b) + "}"
    ensures Decode.ReadBoard(Serialise.BoardJson(b)) == Some((b.id, b.squares))
  {
    BoardGen.UuidIsPlain(b.id);
    Decode.BoardRoundTrip(b);
  }

  // ---------------------------------------------------------- /api/mark_square

  /** The squares with the mark at `i` flipped. */
  function Toggle(squares: seq<Square>, i: nat): (r: seq<Square>)
    requires i < |squares|
    ensures |r| == |squares| && r[i] == Square(squares[i].text, !squares[i].marked)
    ensures forall j :: 0 <= j < |r| && j != i ==> r[j] == squares[j]
  {
    squares[i := Square(squares[i].text, !squares[i].marked)]
  }

  lemma ToggleTwice(squares: seq<Square>, i: nat)
    requires i < |squares|
    ensures Toggle(Toggle(squares, i), i) == squares
  {
  }

  const InvalidRequest := "{\"error\":\"invalid request\"}"

  /** A mark request is served when the body names a square 0..24 and the client has a board. */
  predicate MarkAccepted(st: State, ip: string, body: string)
  {
    0 <= Bodies.IndexFromBody(body) < BoardSize && ip in st.boards
  }

  /** The cells of the line `check_bingo` reports, or none. */
  function WinningIndices(marks: seq<bool>): (r: seq<int>)
    requires |marks| == BoardSize
    ensures r == [] <==> !WinDetector.HasBingo(marks)
    ensures r != [] ==> exists k :: WinDetector.FirstComplete(marks, k) && r == WinDetector.Line(k)
    ensures forall j :: 0 <= j < |r| ==> 0 <= r[j] < BoardSize
  {
    match WinDetector.WinningLine(marks)
    case None => []
    case Some(k) => WinDetector.Line(k)
  }

  /** The client's board with the square the body names flipped. */
  function Marked(st: State, ip: string, body: string): (b: Board)
    requires ValidState(st) && MarkAccepted(st, ip, body)
    ensures |b.squares| == BoardSize
  {
    st.boards[ip].(squares := Toggle(st.boards[ip].squares, Bodies.IndexFromBody(body)))
  }

  /** The state after a `POST /api/mark_square`: unchanged when the request is rejected. */
  function MarkState(st: State, ip: string, body: string): (r: State)
    requires ValidState(st)
    ensures !MarkAccepted(st, ip, body) ==> r == st
    ensures MarkAccepted(st, ip, body) ==>
      r == State(st.boards[ip := Marked(st, ip, body)], st.leaderboard)
  {
    if MarkAccepted(st, ip, body) then State(st.boards[ip := Marked(st, ip, body)], st.leaderboard) else st
  }

  /** The reply to a `POST /api/mark_square`: 400 when rejected, else the board and the win report. */
  function MarkReply(st: State, ip: string, body: string): Reply
    requires ValidState(st)
  {
    if !MarkAccepted(st, ip, body) then Http(400, JsonType, InvalidRequest)
    else
      var b := Marked(st, ip, body);
      var marks := Marks(b.squares);
      Http(200, JsonType, Serialise.MarkJson(b, WinDetector.HasBingo(marks), WinningIndices(marks)))
  }

  /** Marking the same square twice leaves the state as it was. */
  lemma MarkTwiceRestores(st: State, ip: string, body: string)
    requires ValidState(st) && MarkAccepted(st, ip, body)
    ensures ValidState(MarkState(st, ip, body))
    ensures MarkState(MarkState(st, ip, body), ip, body) == st
  {
    var s1 := MarkState(st, ip, body);
    var i := Bodies.IndexFromBody(body);
    assert s1.boards[ip] == Marked(st, ip, body);
    assert ValidState(s1);
    assert MarkAccepted(s1, ip, body);
    ToggleTwice(st.boards[ip].squares, i);
    assert Marked(s1, ip, body) == st.boards[ip];
    assert st.boards[ip := st.boards[ip]] == st.boards;
  }

  /**
   * An accepted mark is answered 200 with the flipped board, whether a line
   * is now complete, and the cells of the first complete line in the order
   * rows, columns, main diagonal, anti-diagonal (none when there is no line).
   */
  lemma MarkReplyReportsFirstLine(st: State, ip: string, body: string)
    requires ValidState(st) && MarkAccepted(st, ip, body)
    ensures var b := MarkState(st, ip, body).boards[ip];
      var marks := Marks(b.squares);
      exists indices :: Serialise.ValidIndices(b.squares, indices) &&
        MarkReply(st, ip, body) == Http(200, JsonType, Serialise.MarkJson(b, WinDetector.HasBingo(marks), indices))
        && (!WinDetector.HasBingo(marks) ==> indices == [])
        && (WinDetector.HasBingo(marks) ==> exists k :: WinDetector.FirstComplete(marks, k) && indices == WinDetector.Line(k))
  {
    var b := MarkState(st, ip, body).boards[ip];
    assert b == Marked(st, ip, body);
    var marks := Marks(b.squares);
    var indices := WinningIndices(marks);
    var json := Serialise.MarkJson(b, WinDetector.HasBingo(marks), indices);
    assert Serialise.ValidIndices(b.squares, indices);
    assert MarkReply(st, ip, body) == Http(200, JsonType, json);
  }

  // --------------------------------------------------------- /api/submit_bingo

  const MissingUsername := "{\"error\":\"missing username\"}"
  const Success := "{\"success\":true}"
  const LeaderboardUpdate := "{\"type\":\"leaderboard_update\",\"source\":\"submit_bingo\"}"

  /**
   * The entry a submit appends: the censored name, the time, the client's
   * board id or "", and the squares the as-written scan of the body records.
   */
  function SubmittedEntry(st: State, ip: string, name: string, body: string, words: seq<string>, time: string): LeaderboardEntry
  {
    LeaderboardEntry(
      Censor.CensorAll(name, words),
      time,
      if ip in st.boards then st.boards[ip].id else "",
      Bodies.WinningSquaresAsWritten(body))
  }

  /** The state after a `POST /api/submit_bingo` from `ip`, with blocked words `words`. */
  function SubmitState(st: State, ip: string, body: string, words: seq<string>, time: string): (r: State)
    ensures Bodies.UsernameOf(body).None? ==> r == st
    ensures Bodies.UsernameOf(body).Some? ==>
      var name := Bodies.UsernameOf(body).value;
      r.leaderboard == st.leaderboard + [SubmittedEntry(st, ip, name, body, words, time)]
      && r.boards.Keys == st.boards.Keys
      && (ip in st.boards ==> r.boards[ip] == st.boards[ip].(bingoAchieved := true))
      && forall other :: other in st.boards && other != ip ==> r.boards[other] == st.boards[other]
  {
    match Bodies.UsernameOf(body)
    case None => st
    case Some(name) =>
      var boards := if ip in st.boards then st.boards[ip := st.boards[ip].(bingoAchieved := true)] else st.boards;
      State(boards, st.leaderboard + [SubmittedEntry(st, ip, name, body, words, time)])
  }

  /** 400 without a username, otherwise 201. */
  function SubmitReply(body: string): (r: Reply)
    ensures r.Http? && r.contentType == JsonType
    ensures r.status == 201 <==> Bodies.UsernameOf(body).Some?
  {
    if Bodies.UsernameOf(body).None? then Http(400, JsonType, MissingUsername) else Http(201, JsonType, Success)
  }

  /**
   * The recorded name is the submitted one with blocked words starred out:
   * same length, each character kept or a star, and no star-free blocked
   * word left in it.
   */
  lemma SubmitCensorsName(st: State, ip: string, body: string, words: seq<string>, time: string)
    requires Bodies.UsernameOf(body).Some?
    requires forall j :: 0 <= j < |words| ==> Censor.StarFree(words[j])
    ensures var name := Bodies.UsernameOf(body).value;
      var recorded := SubmitState(st, ip, body, words, time).leaderboard[|st.leaderboard|].username;
      Censor.OnlyStarred(name, recorded)
      && forall j :: 0 <= j < |words| && |words[j]| > 0 ==> Censor.NoMatch(recorded, words[j])
  {
    var name := Bodies.UsernameOf(body).value;
    Censor.CensorAllStars(name, words);
    forall j | 0 <= j < |words| && |words[j]| > 0
      ensures Censor.NoMatch(Censor.CensorAll(name, words), words[j])
    {
      Censor.CensorAllRemoves(name, words, j);
    }
  }

  /**
   * Once a client has submitted a win, its next winning mark is answered
   * with `"info":"bingod"` instead of the winning line.
   */
  lemma SubmitThenWinningMarkSaysBingod(st: State, ip: string, submit: string, mark: string,
                                        words: seq<string>, time: string)
    requires ValidState(st) && ClockTime(time) && ip in st.boards && Bodies.UsernameOf(submit).Some?
    requires 0 <= Bodies.IndexFromBody(mark) < BoardSize
    ensures var s1 := SubmitState(st, ip, submit, words, time);
      ValidState(s1) && MarkAccepted(s1, ip, mark)
      && var b := MarkState(s1, ip, mark).boards[ip];
      b.bingoAchieved
      && (WinDetector.HasBingo(Marks(b.squares)) ==>
          MarkReply(s1, ip, mark)
          == Http(200, JsonType, "{\"board\":" + Serialise.BoardJson(b) + "," + "\"bingo\":" + "true" + ",\"info\":\"bingod\"" + "}"))
  {
    var s1 := SubmitState(st, ip, submit, words, time);
    SubmitKeepsValid(st, ip, submit, words, time);
    assert MarkAccepted(s1, ip, mark);
    var b := MarkState(s1, ip, mark).boards[ip];
    assert b == Marked(s1, ip, mark);
  }

  // ------------------------------------------------------------------ dispatch

  /** The contents `read_file` returns: the file's bytes, or "" when it cannot be read. */
  function ReadFile(files: map<string, string>, path: string): string
  {
    if path in files then files[path] else ""
  }

  const IndexFile := "frontend/index.html"

  /** The state `handle_client` leaves after the parsed request `p`. */
  function NextState(st: State, words: seq<string>, ip: string, p: Request.Parsed, env: Env): State
    requires ValidState(st) && ValidEnv(env)
  {
    match Request.RouteOf(p.verb, p.path)
    case BoardRoute => BoardState(st, ip, p.query, env)
    case MarkRoute => MarkState(st, ip, p.body)
    case SubmitRoute => SubmitState(st, ip, p.body, words, env.time)
    case _ => st
  }

  /** What `handle_client` sends back for the parsed request `p`. */
  function ReplyTo(st: State, files: map<string, string>, ip: string, p: Request.Parsed, env: Env): Reply
    requires ValidState(st) && ValidEnv(env)
  {
    match Request.RouteOf(p.verb, p.path)
    case IndexPage => Http(200, "text/html", ReadFile(files, IndexFile))
    case Asset(file, contentType) =>
      var content := ReadFile(files, file);
      Http(if content == "" then 404 else 200, contentType, content)
    case BoardRoute => Http(200, JsonType, BoardReplyJson(BoardAfter(st, ip, p.query, env)))
    case MarkRoute => MarkReply(st, ip, p.body)
    case SubmitRoute => SubmitReply(p.body)
    case LeaderboardRoute => Http(200, JsonType, Serialise.LeaderboardJson(st.leaderboard))
    case StreamRoute => EventStream
    case NotFound => Http(404, "text/plain", "Not Found")
  }

  /** The event pushed to the leaderboard stream: only for an accepted submit. */
  function BroadcastOf(p: Request.Parsed): (r: Option<string>)
    ensures r.Some? ==> r.value == LeaderboardUpdate
    ensures r.Some? <==> Request.RouteOf(p.verb, p.path) == Request.SubmitRoute && Bodies.UsernameOf(p.body).Some?
  {
    if Request.RouteOf(p.verb, p.path) == Request.SubmitRoute && Bodies.UsernameOf(p.body).Some?
    then Some(LeaderboardUpdate) else None
  }

  /** `handle_client` once the request text is in hand. */
  function Handle(st: State, words: seq<string>, files: map<string, string>, ip: string, request: string, env: Env): Outcome
    requires ValidState(st) && ValidEnv(env)
  {
    var p := Request.ParseRequest(request);
    Outcome(NextState(st, words, ip, p, env), ReplyTo(st, files, ip, p, env), BroadcastOf(p))
  }

  /** `recv` reads at most 4095 bytes into the zeroed 4096-byte buffer. */
  const MaxRequest: nat := 4095

  /** The request text the handler works on: what arrived, cut at 4095 bytes. */
  function Received(incoming: string): (r: string)
    ensures |r| <= MaxRequest && |r| <= |incoming| && r == incoming[..|r|]
    ensures |incoming| <= MaxRequest ==> r == incoming
  {
    if |incoming| <= MaxRequest then incoming else incoming[..MaxRequest]
  }

  /** A whole connection: nothing is sent when nothing arrived. */
  function Serve(st: State, words: seq<string>, files: map<string, string>, ip: string, incoming: string, env: Env): (r: Option<Outcome>)
    requires ValidState(st) && ValidEnv(env)
    ensures r.None? <==> incoming == ""
  {
    if incoming == "" then None else Some(Handle(st, words, files, ip, Received(incoming), env))
  }

  // ------------------------------------------------------------------ invariants

  lemma SubmitKeepsValid(st: State, ip: string, body: string, words: seq<string>, time: string)
    requires ValidState(st) && ClockTime(time)
    ensures ValidState(SubmitState(st, ip, body, words, time))
  {
    var r := SubmitState(st, ip, body, words, time);
    if Bodies.UsernameOf(body).Some? {
      var e := r.leaderboard[|st.leaderboard|];
      ClockTimeIsPlain(time);
      if ip in st.boards {
        BoardGen.UuidIsPlain(st.boards[ip].id);
      }
      assert Decode.PlainEntry(e);
      assert forall i :: 0 <= i < |st.leaderboard| ==> r.leaderboard[i] == st.leaderboard[i];
    }
  }

  /** Every request keeps the state valid. */
  lemma NextStateKeepsValid(st: State, words: seq<string>, ip: string, p: Request.Parsed, env: Env)
    requires ValidState(st) && ValidEnv(env)
    ensures ValidState(NextState(st, words, ip, p, env))
  {
    match Request.RouteOf(p.verb, p.path)
    case BoardRoute =>
      var b := BoardState(st, ip, p.query, env).boards[ip];
      assert |b.squares| == BoardSize && BoardGen.IsUuid(b.id);
    case MarkRoute =>
    case SubmitRoute => SubmitKeepsValid(st, ip, p.body, words, env.time);
    case _ =>
  }

  /**
   * The leaderboard only grows, by one entry at the end, and only for an
   * accepted submit.
   */
  lemma LeaderboardAppendOnly(st: State, words: seq<string>, ip: string, p: Request.Parsed, env: Env)
    requires ValidState(st) && ValidEnv(env)
    ensures var lb := NextState(st, words, ip, p, env).leaderboard;
      |lb| == |st.leaderboard| + (if BroadcastOf(p).Some? then 1 else 0) && lb[..|st.leaderboard|] == st.leaderboard
  {
    var lb := NextState(st, words, ip, p, env).leaderboard;
    if BroadcastOf(p).Some? {
      assert lb == st.leaderboard + [lb[|st.leaderboard|]];
    }
  }

  /** A request changes at most the board of the client that sent it. */
  lemma OnlyCallerBoardChanges(st: State, words: seq<string>, ip: string, p: Request.Parsed, env: Env)
    requires ValidState(st) && ValidEnv(env)
    ensures var boards := NextState(st, words, ip, p, env).boards;
      forall other :: other != ip ==>
        (other in boards <==> other in st.boards) && (other in st.boards ==> boards[other] == st.boards[other])
  {
  }

  /** The index page, assets, leaderboard, stream and unknown paths change nothing. */
  lemma ReadOnlyRoutes(st: State, words: seq<string>, ip: string, p: Request.Parsed, env: Env)
    requires ValidState(st) && ValidEnv(env)
    requires Request.RouteOf(p.verb, p.path) !in {Request.BoardRoute, Request.MarkRoute, Request.SubmitRoute}
    ensures NextState(st, words, ip, p, env) == st && BroadcastOf(p) == None
  {
  }

  /**
   * A client's win latch, once set, is cleared only by a board request
   * with `NewBoard=true`; in particular marks and resets keep it.
   */
  lemma LatchOnlyClearedByNewBoard(st: State, words: seq<string>, ip: string, p: Request.Parsed, env: Env)
    requires ValidState(st) && ValidEnv(env)
    requires ip in st.boards && st.boards[ip].bingoAchieved
    requires !(Request.RouteOf(p.verb, p.path) == Request.BoardRoute && ModeOf(p.query) == NewBoard)
    ensures var boards := NextState(st, words, ip, p, env).boards;
      ip in boards && boards[ip].bingoAchieved
  {
  }

  /** Only a submit sets the latch of an existing board. */
  lemma OnlySubmitSetsLatch(st: State, words: seq<string>, ip: string, p: Request.Parsed, env: Env)
    requires ValidState(st) && ValidEnv(env)
    requires ip in st.boards && !st.boards[ip].bingoAchieved
    requires Request.RouteOf(p.verb, p.path) != Request.SubmitRoute
    ensures var boards := NextState(st, words, ip, p, env).boards;
      ip in boards && !boards[ip].bingoAchieved
  {
  }

  /** The leaderboard reply reads back as the whole log, oldest entry first. */
  lemma LeaderboardReplyReadsBack(st: State)
    requires ValidState(st)
    ensures Decode.ReadLeaderboard(Serialise.LeaderboardJson(st.leaderboard)) == Some(st.leaderboard)
  {
    Decode.LeaderboardRoundTrip(st.leaderboard);
  }
}
