/** The server's three record types: `Square`, `Board` and `LeaderboardEntry`. */
module Model {

  /** Every board is a 5 by 5 grid stored row by row. */
  const BoardSize: nat := 25

  datatype Square = Square(text: string, marked: bool)

  datatype Board = Board(
    id: string,
    squares: seq<Square>,
    lastAccessedDate: string,
    bingoAchieved: bool)

  datatype LeaderboardEntry = LeaderboardEntry(
    username: string,
    timestamp: string,
    boardId: string,
    winningSquares: seq<string>)

  /** The phrase on each square, in board order. */
  function Texts(squares: seq<Square>): (r: seq<string>)
    ensures |r| == |squares| && forall i :: 0 <= i < |r| ==> r[i] == squares[i].text
  {
    seq(|squares|, i requires 0 <= i < |squares| => squares[i].text)
  }

  /** The mark on each square, in board order. */
  function Marks(squares: seq<Square>): (r: seq<bool>)
    ensures |r| == |squares| && forall i :: 0 <= i < |r| ==> r[i] == squares[i].marked
  {
    seq(|squares|, i requires 0 <= i < |squares| => squares[i].marked)
  }
}
