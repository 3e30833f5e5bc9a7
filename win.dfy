/**
 * `check_bingo`: the win detector. Given the 25 marks in row-major order it
 * reports whether a row, a column or one of the two diagonals is fully marked
 * and, if so, appends the five indices of the first such line, looking at the
 * rows top to bottom, then the columns left to right, then the main diagonal,
 * then the anti-diagonal.
 */
module WinDetector {
  import opened Wrappers
  import opened Model

  /** The number of lines a board has: 5 rows, 5 columns, 2 diagonals. */
  const LineCount: nat := 12

  /**
   * Cell `j` of line `k`, in the order the detector checks lines and writes
   * indices: rows 0-4 (k = 0..4), columns 0-4 (k = 5..9), the main diagonal
   * (k = 10) and the anti-diagonal (k = 11).
   */
  function LineCell(k: nat, j: nat): (r: nat)
    requires k < LineCount && j < 5
    ensures r < BoardSize
  {
    if k < 5 then 5 * k + j
    else if k < 10 then 5 * j + (k - 5)
    else if k == 10 then 6 * j
    else 4 * (j + 1)
  }

  /** The five indices `check_bingo` appends when line `k` wins. */
  function Line(k: nat): (r: seq<int>)
    requires k < LineCount
    ensures |r| == 5 && forall j :: 0 <= j < 5 ==> r[j] == LineCell(k, j)
  {
    seq(5, j requires 0 <= j < 5 => LineCell(k, j))
  }

  /** Every cell of line `k` is marked. */
  predicate Complete(marks: seq<bool>, k: nat)
    requires |marks| == BoardSize && k < LineCount
  {
    forall j :: 0 <= j < 5 ==> marks[LineCell(k, j)]
  }

  /** The mark in row `r`, column `c` of the grid. */
  predicate Cell(marks: seq<bool>, r: nat, c: nat)
    requires |marks| == BoardSize && r < 5 && c < 5
  {
    marks[5 * r + c]
  }

  /** Row `r` is fully marked (grid view, independent of `Line`). */
  predicate RowFull(marks: seq<bool>, r: nat)
    requires |marks| == BoardSize && r < 5
  {
    forall c :: 0 <= c < 5 ==> Cell(marks, r, c)
  }

  /** Column `c` is fully marked. */
  predicate ColumnFull(marks: seq<bool>, c: nat)
    requires |marks| == BoardSize && c < 5
  {
    forall r :: 0 <= r < 5 ==> Cell(marks, r, c)
  }

  /** The mark in row `i` of the top-left to bottom-right diagonal. */
  predicate MainDiagonalCell(marks: seq<bool>, i: nat)
    requires |marks| == BoardSize && i < 5
  {
    Cell(marks, i, i)
  }

  /** The mark in row `i` of the top-right to bottom-left diagonal. */
  predicate AntiDiagonalCell(marks: seq<bool>, i: nat)
    requires |marks| == BoardSize && i < 5
  {
    Cell(marks, i, 4 - i)
  }

  predicate MainDiagonalFull(marks: seq<bool>)
    requires |marks| == BoardSize
  {
    forall i :: 0 <= i < 5 ==> MainDiagonalCell(marks, i)
  }

  predicate AntiDiagonalFull(marks: seq<bool>)
    requires |marks| == BoardSize
  {
    forall i :: 0 <= i < 5 ==> AntiDiagonalCell(marks, i)
  }

  /** The board has a bingo: some row, column or diagonal is fully marked. */
  predicate HasBingo(marks: seq<bool>)
    requires |marks| == BoardSize
  {
    || (exists r :: 0 <= r < 5 && RowFull(marks, r))
    || (exists c :: 0 <= c < 5 && ColumnFull(marks, c))
    || MainDiagonalFull(marks)
    || AntiDiagonalFull(marks)
  }

  /** Line `k` is the first complete line in checking order. */
  predicate FirstComplete(marks: seq<bool>, k: nat)
    requires |marks| == BoardSize
  {
    k < LineCount && Complete(marks, k) && forall k' :: 0 <= k' < k ==> !Complete(marks, k')
  }

  /** The first complete line at or after `from`, in checking order. */
  function FirstCompleteFrom(marks: seq<bool>, from: nat): (r: Option<nat>)
    requires |marks| == BoardSize && from <= LineCount
    ensures r.Some? ==> from <= r.value < LineCount && Complete(marks, r.value)
    ensures r.Some? ==> forall k :: from <= k < r.value ==> !Complete(marks, k)
    ensures r.None? ==> forall k :: from <= k < LineCount ==> !Complete(marks, k)
    decreases LineCount - from
  {
    if from == LineCount then None
    else if Complete(marks, from) then Some(from)
    else FirstCompleteFrom(marks, from + 1)
  }

  /** The line `check_bingo` reports, if any. */
  function WinningLine(marks: seq<bool>): (r: Option<nat>)
    requires |marks| == BoardSize
    ensures r.Some? <==> HasBingo(marks)
    ensures r.Some? ==> FirstComplete(marks, r.value)
  {
    LinesAreTheGrid(marks);
    FirstCompleteFrom(marks, 0)
  }

  /** `Line` enumerates exactly the rows, columns and diagonals of the grid. */
  lemma LinesAreTheGrid(marks: seq<bool>)
    requires |marks| == BoardSize
    ensures forall r :: 0 <= r < 5 ==> (Complete(marks, r) <==> RowFull(marks, r))
    ensures forall k :: 5 <= k < 10 ==> (Complete(marks, k) <==> ColumnFull(marks, k - 5))
    ensures Complete(marks, 10) <==> MainDiagonalFull(marks)
    ensures Complete(marks, 11) <==> AntiDiagonalFull(marks)
    ensures HasBingo(marks) <==> exists k :: 0 <= k < LineCount && Complete(marks, k)
  {
    forall k, j | 0 <= k < 10 && 0 <= j < 5
      ensures k < 5 ==> marks[LineCell(k, j)] == Cell(marks, k, j)
      ensures 5 <= k ==> marks[LineCell(k, j)] == Cell(marks, j, k - 5)
    {
    }
    forall j | 0 <= j < 5
      ensures marks[LineCell(10, j)] == MainDiagonalCell(marks, j)
      ensures marks[LineCell(11, j)] == AntiDiagonalCell(marks, j)
    {
    }
    assert forall r :: 0 <= r < 5 ==> (Complete(marks, r) <==> RowFull(marks, r));
    forall k | 5 <= k < 10
      ensures Complete(marks, k) <==> ColumnFull(marks, k - 5)
    {
      var c := k - 5;
      assert forall j :: 0 <= j < 5 ==> marks[LineCell(k, j)] == Cell(marks, j, c);
    }
    if HasBingo(marks) {
      if r :| 0 <= r < 5 && RowFull(marks, r) {
        assert Complete(marks, r);
      } else if c :| 0 <= c < 5 && ColumnFull(marks, c) {
        assert Complete(marks, 5 + c);
      } else if MainDiagonalFull(marks) {
        assert Complete(marks, 10);
      } else {
        assert Complete(marks, 11);
      }
    }
    if k :| 0 <= k < LineCount && Complete(marks, k) {
      if k < 5 {
        assert RowFull(marks, k);
      } else if k < 10 {
        assert ColumnFull(marks, k - 5);
      }
    }
  }

  /**
   * The inner loop of `check_bingo`: walks the five cells of line `k` and stops
   * at the first unmarked one.
   */
  method ScanLine(marked: seq<bool>, k: nat) returns (win: bool)
    requires |marked| == BoardSize && k < LineCount
    ensures win <==> Complete(marked, k)
  {
    win := true;
    var j := 0;
    while j < 5
      invariant 0 <= j <= 5
      invariant win
      invariant forall t :: 0 <= t < j ==> marked[LineCell(k, t)]
    {
      if !marked[LineCell(k, j)] {
        win := false;
        break;
      }
      j := j + 1;
    }
  }

  /** The `push_back` loop that copies line `k`'s indices into the out-parameter. */
  method AppendLine(winningIn: seq<int>, k: nat) returns (winning: seq<int>)
    requires k < LineCount
    ensures winning == winningIn + Line(k)
  {
    winning := winningIn;
    for j := 0 to 5
      invariant winning == winningIn + Line(k)[..j]
    {
      assert Line(k)[..j + 1] == Line(k)[..j] + [LineCell(k, j)];
      winning := winning + [LineCell(k, j)];
    }
  }

  /**
   * `check_bingo(squares, winning_indices)`: returns whether the board has a
   * bingo and appends the first complete line's indices to `winningIn`.
   */
  method CheckBingo(squares: seq<Square>, winningIn: seq<int>) returns (isBingo: bool, winning: seq<int>)
    requires |squares| == BoardSize
    ensures isBingo <==> HasBingo(Marks(squares))
    ensures isBingo ==> exists k :: FirstComplete(Marks(squares), k) && winning == winningIn + Line(k)
    ensures !isBingo ==> winning == winningIn
    ensures isBingo <==> WinningLine(Marks(squares)).Some?
    ensures isBingo ==> winning == winningIn + Line(WinningLine(Marks(squares)).value)
  {
    var marked: seq<bool> := [];
    for t := 0 to |squares|
      invariant marked == Marks(squares[..t])
    {
      marked := marked + [squares[t].marked];
    }
    assert squares[..|squares|] == squares;
    isBingo, winning := ScanLines(marked, winningIn);
  }

  /** The three scans of `check_bingo` over the marks: rows, columns, then both diagonals. */
  method ScanLines(marked: seq<bool>, winningIn: seq<int>) returns (isBingo: bool, winning: seq<int>)
    requires |marked| == BoardSize
    ensures isBingo <==> WinningLine(marked).Some?
    ensures isBingo ==> winning == winningIn + Line(WinningLine(marked).value)
    ensures !isBingo ==> winning == winningIn
  {
    // rows, top to bottom
    var i := 0;
    while i < 5
      invariant 0 <= i <= 5
      invariant forall k :: 0 <= k < i ==> !Complete(marked, k)
    {
      var win := ScanLine(marked, i);
      if win {
        winning := AppendLine(winningIn, i);
        WinningLineIsFirst(marked, i);
        return true, winning;
      }
      i := i + 1;
    }

    // columns, left to right
    i := 0;
    while i < 5
      invariant 0 <= i <= 5
      invariant forall k :: 0 <= k < 5 + i ==> !Complete(marked, k)
    {
      var win := ScanLine(marked, 5 + i);
      if win {
        winning := AppendLine(winningIn, 5 + i);
        WinningLineIsFirst(marked, 5 + i);
        return true, winning;
      }
      i := i + 1;
    }

    // both diagonals in one pass
    var diag1, diag2 := true, true;
    for i := 0 to 5
      invariant diag1 <==> forall t :: 0 <= t < i ==> marked[LineCell(10, t)]
      invariant diag2 <==> forall t :: 0 <= t < i ==> marked[LineCell(11, t)]
    {
      assert LineCell(10, i) == i * 6 && LineCell(11, i) == (i + 1) * 4;
      if !marked[i * 6] {
        diag1 := false;
      }
      if !marked[(i + 1) * 4] {
        diag2 := false;
      }
    }
    if diag1 {
      winning := AppendLine(winningIn, 10);
      WinningLineIsFirst(marked, 10);
      return true, winning;
    }
    if diag2 {
      winning := AppendLine(winningIn, 11);
      WinningLineIsFirst(marked, 11);
      return true, winning;
    }
    assert WinningLine(marked).None?;
    return false, winningIn;
  }

  /** The first complete line is unique, so it is the one `WinningLine` names. */
  lemma WinningLineIsFirst(marks: seq<bool>, k: nat)
    requires |marks| == BoardSize && FirstComplete(marks, k)
    ensures WinningLine(marks) == Some(k)
  {
    LinesAreTheGrid(marks);
    var w := WinningLine(marks);
    assert w.Some?;
    assert !(w.value < k) && !(k < w.value);
  }

  /**
   * A full row wins over every column and diagonal: if row `r` is the first
   * full row, the reported line is row `r`, whose indices are 5r .. 5r+4.
   */
  lemma RowsTakePriority(marks: seq<bool>, r: nat)
    requires |marks| == BoardSize && r < 5 && RowFull(marks, r)
    requires forall r' :: 0 <= r' < r ==> !RowFull(marks, r')
    ensures WinningLine(marks) == Some(r)
    ensures Line(r) == [5 * r, 5 * r + 1, 5 * r + 2, 5 * r + 3, 5 * r + 4]
  {
    LinesAreTheGrid(marks);
    WinningLineIsFirst(marks, r);
  }

  /**
   * A full main diagonal with no full row or column is reported as the main
   * diagonal, indices 0, 6, 12, 18, 24.
   */
  lemma MainDiagonalAfterRowsAndColumns(marks: seq<bool>)
    requires |marks| == BoardSize && MainDiagonalFull(marks)
    requires forall r :: 0 <= r < 5 ==> !RowFull(marks, r)
    requires forall c :: 0 <= c < 5 ==> !ColumnFull(marks, c)
    ensures WinningLine(marks) == Some(10)
    ensures Line(10) == [0, 6, 12, 18, 24]
  {
    assert Line(10) == [0, 6, 12, 18, 24];
    LinesAreTheGrid(marks);
    WinningLineIsFirst(marks, 10);
  }
}
