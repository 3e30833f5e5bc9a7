# Bingo server core in Dafny

This project models the request-handling core of the C++ bingo server in
`bingo/bingo.cpp` and proves properties about it. The server keeps one 5×5
board per client address (`user_boards`) and an append-only `leaderboard`.
It serves these JSON endpoints:

- `/api/board/`: fetch, create or reset the caller's board.
- `/api/mark_square`: flip one square and report a win.
- `/api/submit_bingo`: record a win on the leaderboard.
- `/api/leaderboard`: return the log.

It also serves the index page and static assets, and opens an event stream.
Each request runs whole under one mutex, so each handler is modelled as one
atomic step.

Modules, following the structure of the program:

| file | module | models |
|---|---|---|
| `wrappers.dfy` | `Wrappers` | `Option`, for every `string::npos` test |
| `text.dfy` | `Text` | `string::find`, digit runs, decimal writing, comma-joined lists |
| `json.dfy` | `Json` | `json_escape`, and a JSON string reader used as its inverse |
| `model.dfy` | `Model` | `Square`, `Board`, `LeaderboardEntry` |
| `win.dfy` | `WinDetector` | `check_bingo` |
| `boardgen.dfy` | `BoardGen` | `generate_user_id`, `generate_board`, `load_phrases`, `load_blocked_words` |
| `serialise.dfy` | `Serialise` | `board_to_json`, `leaderboard_to_json`, the mark reply writer |
| `decode.dfy` | `Decode` | readers for the JSON the server writes, used to prove those writers invertible |
| `request.dfy` | `Request` | request line, path/query split, POST body, routing, content type, status text, response framing |
| `bodies.dfy` | `Bodies` | `extract_index_from_body`, the username and winning-squares parsing of submit |
| `censor.dfy` | `Censor` | `censor_text`, as a literal ASCII case-insensitive replacement |
| `handlers.dfy` | `Handlers` | every handler as a function from state and request to new state, reply and broadcast |
| `server.dfy` | `Server` | class `BingoServer`: fields `userBoards` and `leaderboard`, with one method per handler and `HandleClient` |

Inputs the server takes from the world become parameters:

- Randomness:
  - the shuffled phrase pool, which must be a permutation of the phrases;
  - the 31 nibbles (0..15) that `generate_user_id` draws.
- The clock:
  - the date string;
  - the `HH:MM:SS` time string.
- The filesystem:
  - the lines of `db/phrases.txt` and `db/blocked.txt`, each `None` when the file cannot be opened;
  - a map from path to contents for `read_file`.
- The network:
  - the client address;
  - the bytes `recv` returns.

Where the code and the prose description of the system disagree, the model
follows the code. One such case: a `reset=true` board request clears the
marks only. It keeps the board's `bingo_achieved` latch, although the
description says reset clears the latch too (`bingo/bingo.cpp:387-391`).

## Model

| member | source | states |
|---|---|---|
| WinDetector.LinesAreTheGrid | bingo/bingo.cpp:150-196 | The 12 scanned lines are the 5 rows, the 5 columns, the main diagonal 0,6,12,18,24 and the anti-diagonal 4,8,12,16,20. A bingo exists iff one of them is fully marked |
| WinDetector.ScanLine | bingo/bingo.cpp:150-157 | The inner `break` loop reports true iff every cell of line k is marked |
| WinDetector.AppendLine | bingo/bingo.cpp:158-160 | Pushing the winning line adds exactly its 5 cells, in order, to the out-list |
| WinDetector.CheckBingo | bingo/bingo.cpp:145-198 | The result is true iff some row, column or diagonal is complete. When true, exactly the cells of the first complete line (rows, then columns, main diagonal, anti-diagonal) are appended. When false, nothing is appended |
| WinDetector.ScanLines | bingo/bingo.cpp:150-196 | The row, column and diagonal scans report a bingo iff there is one. On a win they append exactly the cells of the first complete line; otherwise they leave the list as it was |
| WinDetector.FirstCompleteFrom | bingo/bingo.cpp:150-196 | The scan from line `from` finds the first complete line, or proves none is complete |
| WinDetector.WinningLine | bingo/bingo.cpp:145-198 | A line is reported iff there is a bingo, and it is the first complete one in scan order |
| WinDetector.WinningLineIsFirst | bingo/bingo.cpp:150-196 | Any line that is complete, with no earlier line complete, is the one reported |
| WinDetector.RowsTakePriority | bingo/bingo.cpp:150-163 | A full row r, with no full row before it, wins over any column or diagonal. Its cells are 5r..5r+4 |
| WinDetector.MainDiagonalAfterRowsAndColumns | bingo/bingo.cpp:180-190 | With no full row or column, a full main diagonal is reported as 0,6,12,18,24 |
| WinDetector.Line | bingo/bingo.cpp:158-196 | Each line has 5 cells, all within the 25-square board |
| BoardGen.FormatUuid | bingo/bingo.cpp:75-89 | The identifier is 36 characters: `-` at 8, 13, 18 and 23, `4` at 14, one of `89ab` at 19, lowercase hex elsewhere |
| BoardGen.GenerateUserId | bingo/bingo.cpp:81-88 | The loop over the template fills `x` with a nibble and `y` with `8 | (nibble & 3)`, giving a well-formed identifier |
| BoardGen.FormatUuidInjective | bingo/bingo.cpp:82-87 | Two draw sequences give the same identifier only if they agree on every `x` nibble and on the low two bits of the `y` nibble |
| BoardGen.UuidIsPlain | bingo/bingo.cpp:234-235 | An identifier needs no JSON escaping, so writing it raw is safe |
| BoardGen.GenerateBoard | bingo/bingo.cpp:124-143 | 25 unmarked squares, square i holding `shuffled[i % |shuffled|]`, and each phrase drawn from the pool. The latch is false, the id is well formed, and the date is the given one |
| BoardGen.DistinctPhrasesNeverRepeat | bingo/bingo.cpp:130-138 | With at least 25 distinct phrases, no phrase appears twice on a board |
| BoardGen.NonEmptyLines | bingo/bingo.cpp:98-101 | Every kept line is a non-empty line of the file, and every non-empty line of the file is kept |
| BoardGen.NonEmptyLinesAppend | bingo/bingo.cpp:98-101 | The lines are kept in file order: the kept lines of two stretches are those of the first followed by those of the second |
| BoardGen.NonEmptyLine | bingo/bingo.cpp:99-100 | A single line is kept exactly when it is not empty |
| BoardGen.NonEmptyLinesCounts | bingo/bingo.cpp:98-101 | Each non-empty line is kept as many times as the file holds it, and no empty line is kept |
| BoardGen.BlankPhraseFileGivesEmptyPool | bingo/bingo.cpp:91-102 | A phrase file that exists but has only blank lines leaves the pool empty (see Findings) |
| BoardGen.LoadPhrasesFixed | bingo/bingo.cpp:91-102 | The pool is never empty and holds no empty phrase. It is the file's non-empty lines whenever there are any |
| BoardGen.LoadBlockedWords | bingo/bingo.cpp:104-113 | A missing file blocks nothing. An opened file blocks exactly its non-empty lines, in file order, so no blocked word is empty |
| Json.JsonEscape | bingo/bingo.cpp:201-231 | The escaping loop computes `Escaped`, character by character |
| Json.EscapedAppend | bingo/bingo.cpp:203-230 | Escaping distributes over concatenation |
| Json.EscapedLength | bingo/bingo.cpp:203-230 | The output is as long as the input plus the number of the 7 special characters in it |
| Json.EscapedHasNoControl | bingo/bingo.cpp:211-225 | The output holds no backspace, form feed, newline, carriage return or tab |
| Json.EscapedPlain | bingo/bingo.cpp:226-228 | Text with no special character is copied unchanged |
| Json.EscapedRoundTrip | bingo/bingo.cpp:201-231 | Reading an escaped string back as JSON gives the original text and leaves the rest |
| Json.PlainRoundTrip | bingo/bingo.cpp:235 | A field written unescaped reads back when it has no quote or backslash |
| Serialise.BoardToJson | bingo/bingo.cpp:233-243 | The `i > 0` comma loop writes exactly the board JSON |
| Serialise.LeaderboardToJson | bingo/bingo.cpp:245-265 | The nested writer loops produce exactly the leaderboard JSON |
| Serialise.WinningListToJson | bingo/bingo.cpp:255-260 | The inner loop writes the comma-joined quoted, escaped phrases |
| Serialise.IndexListToJson | bingo/bingo.cpp:427-431 | The index loop writes the comma-joined decimal indices |
| Serialise.PhraseListToJson | bingo/bingo.cpp:433-437 | The list loop writes the phrases at the winning indices, quoted and escaped |
| Serialise.MarkToJson | bingo/bingo.cpp:419-442 | The mark reply with or without `"info"`, as the three branches write it |
| Decode.BoardRoundTrip | bingo/bingo.cpp:233-243 | Reading a written board gives back its id and every square's text and mark |
| Decode.LeaderboardRoundTrip | bingo/bingo.cpp:245-265 | Reading the written leaderboard gives back every entry in order, when the timestamps and board ids need no escaping |
| Decode.StringListRoundTrip | bingo/bingo.cpp:433-437 | A written phrase list reads back as the phrases |
| Text.Find | bingo/bingo.cpp:448 | A result is the first match at or after `from`. No result means there is no match |
| Text.IndexOfIsFind | bingo/bingo.cpp:456 | The single-character search equals the substring search for that one character |
| Text.NatToStringRoundTrip | bingo/bingo.cpp:430 | Writing a number in decimal and reading it back gives the number |
| Request.ReadWordEmpty | bingo/bingo.cpp:346 | A `>>` read yields no word iff only white space remains |
| Request.RequestLineRoundTrip | bingo/bingo.cpp:344-346 | Three space-separated words are read back as method, target and version |
| Request.SplitTarget | bingo/bingo.cpp:348-353 | The path has no `?`. When the target has one, path `?` query rejoins it. Otherwise the query is empty |
| Request.SplitTargetRoundTrip | bingo/bingo.cpp:349-353 | The split at the first `?` recovers a path and any query |
| Request.BodyOf | bingo/bingo.cpp:355-361 | Only POST has a body, and it is never longer than the request |
| Request.BodyOfRoundTrip | bingo/bingo.cpp:357-360 | For POST, the body is everything after the first blank line |
| Request.ParseRequestRoundTrip | bingo/bingo.cpp:344-356 | A request line with a query is split into verb, path and query |
| Request.ParsePostRoundTrip | bingo/bingo.cpp:344-361 | A POST whose header lines hold no blank line of their own is split into path, query and exactly the body after the blank line |
| Request.RouteIgnoresVerb | bingo/bingo.cpp:363-514 | Only the mark and submit paths look at the verb |
| Request.StateChangesNeedPost | bingo/bingo.cpp:403-445 | Mark and submit sent without POST fall through to Not Found |
| Request.BoardRouteIsPrefix | bingo/bingo.cpp:379 | Any path starting with `/api/board/` is the board route, and `/api/board` is not |
| Request.JsonIsServedAsJavaScript | bingo/bingo.cpp:371-376 | `.json` contains `.js`, so it is served as `application/javascript` |
| Request.CssTestedFirst | bingo/bingo.cpp:371-372 | Any path with `.css` anywhere in it is served as `text/css`, whatever other suffix it also holds |
| Request.ScriptUnlessCss | bingo/bingo.cpp:371-374 | A path without `.css` and with `.js` anywhere in it, `.json` included, is served as `application/javascript` |
| Request.ImageUnlessCssOrJs | bingo/bingo.cpp:371-376 | A path without `.css` or `.js` and with `.png` anywhere in it is served as `image/png` |
| Request.PlainByDefault | bingo/bingo.cpp:370-376 | Every path that holds none of `.css`, `.js` and `.png` is served as `text/plain` |
| Request.DotlessIsPlain | bingo/bingo.cpp:370-376 | A path with no dot at all is served as `text/plain` |
| Request.StatusText | bingo/bingo.cpp:290 | The reason phrase is "OK" iff the status is 200, and "Not Found" iff it is 404 |
| Request.CreatedSaysError | bingo/bingo.cpp:290 | 201 and 400 are both sent with the phrase "Error" |
| Request.ResponseFraming | bingo/bingo.cpp:289-301 | The response is the header block then the body. The header block ends with a blank line, and the Content-Length reads back as the body length |
| Bodies.IndexFromBody | bingo/bingo.cpp:315-332 | The result is -1 or a value 0..2147483647. Any result other than -1 means the first `"index":` was found and a digit follows it at once, so a missing key or a missing digit gives -1 |
| Bodies.ExtractIndex | bingo/bingo.cpp:315-332 | The digit-scanning loop computes `IndexFromBody`, and no negative result other than -1 is possible |
| Bodies.IndexRoundTrip | bingo/bingo.cpp:316-331 | Any non-empty run of digits right after the first `"index":`, ended by a non-digit or the end of the body, reads back as its decimal value, leading zeros included, or as -1 when that value is past `INT_MAX` |
| Bodies.LeadingZerosIgnored | bingo/bingo.cpp:327-330 | The body `{"index":007}` gives 7 |
| Bodies.MarkRequestIndex | bingo/bingo.cpp:406 | The body `{"index":i}` gives i for every square |
| Bodies.SpaceAfterColon | bingo/bingo.cpp:319-326 | `{"index": 7}` gives -1, because no digit follows the colon at once |
| Bodies.UsernameOf | bingo/bingo.cpp:448-457 | No result iff the key is missing. A name holds no quote |
| Bodies.UsernameRoundTrip | bingo/bingo.cpp:455-457 | A quote-free name after the first key is read back whole |
| Bodies.UsernameStopsAtEscapedQuote | bingo/bingo.cpp:456 | An escaped quote in the name ends it at the backslash |
| Bodies.ExtractWinningSquares | bingo/bingo.cpp:469-496 | The scan as written. With either key missing the list is empty. Otherwise it yields the texts between successive quote pairs before the first `]`, each put through the unescape loop |
| Bodies.ScanQuotedRuns | bingo/bingo.cpp:477-494 | The outer quote-pair loop computes those runs |
| Bodies.NextQuotedRun | bingo/bingo.cpp:479-486 | It finds the next quote pair, or reports that none is left |
| Bodies.UnescapeInPlace | bingo/bingo.cpp:487-491 | The in-place `\"` replacement loop computes `UnescapeQuotes` |
| Bodies.FindEscapedQuoteIsFind | bingo/bingo.cpp:488 | The character-level search for backslash-quote is `find("\\\"")` |
| Bodies.UnescapeIsDeadCode | bingo/bingo.cpp:486-491 | No raw item holds a quote, so the unescape loop never changes one (see Findings) |
| Bodies.AsWrittenSplitsEscapedQuote | bingo/bingo.cpp:477-494 | The list written for the phrase `say "hi"` is recorded as two items, `say \` and an empty one |
| Bodies.WinningSquaresRoundTrip | bingo/bingo.cpp:469-496 | The corrected reader gives back exactly the phrases of a list written as the server writes it |
| Bodies.AsWrittenAgreesOnSimple | bingo/bingo.cpp:469-496 | On phrases without special characters or `]`, the as-written scan and the corrected reader both give the written phrases |
| Censor.CensorText | bingo/bingo.cpp:115-122 | The loop applies each blocked word in list order |
| Censor.ReplaceWordStars | bingo/bingo.cpp:118-119 | One replacement keeps the length and only turns characters into `*` |
| Censor.ReplaceWordRemoves | bingo/bingo.cpp:118-119 | After replacing a word that contains no `*`, no case-insensitive occurrence of it is left |
| Censor.ReplaceWordIdempotent | bingo/bingo.cpp:118-119 | Replacing the same word a second time changes nothing |
| Censor.CensorAllStars | bingo/bingo.cpp:115-122 | The censored text has the original length and differs only by stars |
| Censor.CensorAllRemoves | bingo/bingo.cpp:115-122 | No non-empty blocked word without `*` survives in the censored text, including words replaced earlier in the list |
| Censor.CensorExample | bingo/bingo.cpp:118-119 | `Badger` with blocked word `bad` becomes `***ger` |
| Handlers.ModeOf | bingo/bingo.cpp:382-397 | `NewBoard=true` in the query selects a new board, even when `reset=true` is also present. `reset=true` alone selects reset |
| Handlers.Unmarked | bingo/bingo.cpp:389-391 | Clearing keeps every text and leaves no square marked |
| Handlers.BoardState | bingo/bingo.cpp:379-402 | The caller ends up with a board dated today. Every other client's board and the leaderboard are unchanged |
| Handlers.BoardStepKeepsBoard | bingo/bingo.cpp:387-397 | Without `NewBoard`, an existing board keeps its id, texts and latch. Reset clears every mark; a plain request keeps the marks |
| Handlers.BoardStepFresh | bingo/bingo.cpp:385-396 | `NewBoard`, or a first visit, gives a fresh board: a UUID, no latch, 25 unmarked squares from the shuffled pool, each a phrase of the pool |
| Handlers.BoardReplyReadsBack | bingo/bingo.cpp:399-401 | The reply wraps the board JSON, which reads back as the board's id and squares |
| Handlers.Toggle | bingo/bingo.cpp:414 | Only square i changes: its mark flips and its text stays |
| Handlers.ToggleTwice | bingo/bingo.cpp:414 | Flipping a square twice restores it |
| Handlers.WinningIndices | bingo/bingo.cpp:416-417 | The list is empty iff there is no bingo. Otherwise it holds the cells of the first complete line, all within the board |
| Handlers.MarkState | bingo/bingo.cpp:403-414 | A bad index (below 0 or above 24), or a client without a board, leaves the state unchanged. Otherwise only the caller's square is flipped |
| Handlers.MarkTwiceRestores | bingo/bingo.cpp:406-414 | Two identical accepted marks leave the whole state as it was |
| Handlers.MarkReplyReportsFirstLine | bingo/bingo.cpp:416-443 | An accepted mark gets 200 with the flipped board and the bingo flag. On a win, the reply carries the cells of the first complete line |
| Handlers.SubmitState | bingo/bingo.cpp:445-498 | Without `"username":"` nothing changes. Otherwise exactly one entry is appended: the censored name, the time, the caller's board id or `""`, and the winning squares as the as-written scan records them. Only the caller's latch is set, and every board stays |
| Handlers.SubmitReply | bingo/bingo.cpp:449-502 | Always JSON. The status is 201 iff a username was found, and 400 otherwise |
| Handlers.SubmitCensorsName | bingo/bingo.cpp:457-458 | The recorded name has the submitted name's length, differs only by stars, and keeps no blocked word |
| Handlers.SubmitThenWinningMarkSaysBingod | bingo/bingo.cpp:422-424 | After a submit, a mark that completes a line is answered `"info":"bingod"` with no winning list |
| Handlers.BroadcastOf | bingo/bingo.cpp:500 | The leaderboard-update event is pushed iff a submit was accepted |
| Handlers.Received | bingo/bingo.cpp:335-343 | The handler sees at most 4095 bytes (characters, each standing for one byte): a prefix of what arrived, all of it when it fits |
| Handlers.Serve | bingo/bingo.cpp:335-341 | Nothing is answered iff nothing arrived |
| Handlers.NextStateKeepsValid | bingo/bingo.cpp:363-514 | Every request keeps every board at 25 squares with a UUID, and every logged timestamp and board id free of characters that need escaping |
| Handlers.LeaderboardAppendOnly | bingo/bingo.cpp:498 | The leaderboard grows by one entry iff a submit is accepted, and never otherwise. Earlier entries are kept |
| Handlers.OnlyCallerBoardChanges | bingo/bingo.cpp:379-503 | No request changes or removes another client's board |
| Handlers.ReadOnlyRoutes | bingo/bingo.cpp:363-378 | The index page, assets, the leaderboard, the stream and unknown paths change nothing and push nothing |
| Handlers.LatchOnlyClearedByNewBoard | bingo/bingo.cpp:385-461 | Once set, a latch is dropped only by a `NewBoard=true` board request. Marks and resets keep it |
| Handlers.OnlySubmitSetsLatch | bingo/bingo.cpp:460-462 | No request other than a submit sets the latch of an existing board |
| Handlers.LeaderboardReplyReadsBack | bingo/bingo.cpp:504-507 | The leaderboard reply reads back as the whole log, oldest entry first |
| Server.ClearMarks | bingo/bingo.cpp:389-391 | The reset loop clears every mark in place |
| Server.ReportMark | bingo/bingo.cpp:416-443 | `check_bingo` and the mark writer together produce the reply for the flipped board |
| Server.BingoServer.constructor | bingo/bingo.cpp:91-113 | Start-up loads the phrases, with the default pool also when the file has no phrase, and the blocked words. There are no boards and the leaderboard is empty |
| Server.BingoServer.SelectBoardFor | bingo/bingo.cpp:382-397 | The `NewBoard` / `reset` branches set the caller's board as the board mode says |
| Server.BingoServer.BoardRequest | bingo/bingo.cpp:379-402 | The fields change as `BoardState` says, and the reply is the date-stamped board |
| Server.BingoServer.FlipSquare | bingo/bingo.cpp:413-414 | Only the caller's square at `index` flips, in place |
| Server.BingoServer.MarkSquare | bingo/bingo.cpp:403-444 | The fields change as `MarkState` says, and the reply is as `MarkReply` says |
| Server.BingoServer.SubmitBingo | bingo/bingo.cpp:445-503 | The fields change as `SubmitState` says. The reply and the pushed event are those of the submit |
| Server.BingoServer.LeaderboardRequest | bingo/bingo.cpp:504-507 | The reply is the current log as JSON, and nothing changes |
| Server.BingoServer.Dispatch | bingo/bingo.cpp:363-514 | The route chain changes the fields as `NextState` says. The reply is as `ReplyTo` says, and the pushed event as `BroadcastOf` says |
| Server.BingoServer.HandleClient | bingo/bingo.cpp:334-518 | One connection changes the fields and answers exactly as `Serve` says, keeping the state valid |

## Left out

- Every string of the model is a byte string: each `char` stands for one byte of a `std::string`, with a value in 0..255, and UTF-8 text appears as its bytes. So every length is a byte count: the 4095-byte receive limit, the `Content-Length`, and the per-byte loop of `json_escape`. `Censor.Lower` folds ASCII letters only, as the "C" locale does. The types do not enforce the 0..255 range.
- Sockets, `accept`, threads and the two mutexes are not modelled. Each request is one atomic step on the state, which is what `data_mutex` guarantees.
- The event stream's subscriber set is not modelled. Nor are `notify_sse_clients` pruning failed sends and the bytes `send_sse_response` writes. A handler only returns the event it would push, and `EventStream` stands for the stream headers.
- `get_date`, `get_time`, `random_device`, `mt19937` and `shuffle` become parameters. The shuffle is any permutation of the pool, and the draws are any 31 nibbles.
- `read_file` and the `ifstream` reads are not modelled. Their results are parameters: a map of readable files, and the lines of each start-up file.
- Port selection from `PORT`, `bind`, `listen` and the start-up messages are not modelled.
- Censor.CensorText: a blocked word is compiled as a `std::regex` with `icase`. The model treats each word as literal text folded to ASCII lower case, so words holding regex metacharacters are outside it.
- Server.BingoServer.HandleClient: the reply's bytes on the wire are not sent. `Request.HttpResponse` gives the framing of each HTTP reply.
- Server.BingoServer.constructor: loads the pool with the corrected `BoardGen.LoadPhrasesFixed`, not the as-written `BoardGen.LoadPhrases`. A phrase file holding only blank lines therefore never leaves the server with an empty pool, and the `i % 0` that the source's next `generate_board` would compute is not reached. That empty pool is shown only by `BoardGen.BlankPhraseFileGivesEmptyPool`, together with `BoardGen.GenerateBoard` requiring a non-empty pool.
- Bodies.UsernameOf: the name is cut at the first quote after the key, exactly as written, escaped or not. No corrected reading is given, because the source makes no promise for names with quotes.

## Findings

| source | as written | input that shows it | evidently intended | confidence | as-written member | corrected member |
|---|---|---|---|---|---|---|
| bingo/bingo.cpp:477-494 | The item scan takes the text between successive quote characters, so the quote inside an escaped `\"` ends the item. The `\"` replacement loop therefore can never find anything to replace | The phrase `say "hi"`, written by the mark reply as `"say \"hi\""`, is recorded as the two items `say \` and the empty one | Each JSON string of the list is read with its escapes undone, so the recorded phrase is `say "hi"` | not executed | Bodies.AsWrittenSplitsEscapedQuote | Bodies.WinningSquaresRoundTrip |
| bingo/bingo.cpp:91-102,137 | A phrase file that opens but holds only blank lines leaves `phrases` empty, and `generate_board` then computes `i % pool.size()` with a pool size of 0 | `db/phrases.txt` holding one empty line | Fall back to the default phrases whenever no phrase was loaded | not executed | BoardGen.BlankPhraseFileGivesEmptyPool | BoardGen.LoadPhrasesFixed |

The server model records what the source records: submit takes the winning
squares from the as-written scan, `Bodies.ExtractWinningSquares`, so a phrase
with an escaped quote is logged split, as the source logs it. The corrected
reader `Bodies.WinningSquaresOf` stands beside it with its round trip, and
`Bodies.AsWrittenAgreesOnSimple` shows where the two agree. The constructor
is the one place where the server runs a corrected member,
`BoardGen.LoadPhrasesFixed`, because the as-written empty pool ends in a
division by zero that the server state cannot represent; see "## Left out".
