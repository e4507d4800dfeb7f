/** The game board (board.go): a square grid whose size is odd and at least 3. */
module Boards {
  import opened Wrappers
  import opened Positions

  datatype Board = Board(boardSize: int)

  /** The two rejections of NewBoard, checked in this order. */
  datatype BoardError = NotOddSize | SizeBelowThree

  /** Validates a board size. The source's `%` truncates towards zero, but only
      its comparison with 0 is used, on which truncating and Euclidean remainders agree. */
  function NewBoard(boardSize: int): (r: Result<Board, BoardError>)
    ensures r.Ok? <==> boardSize % 2 == 1 && boardSize >= 3
    ensures r.Ok? ==> r.value.boardSize == boardSize
    ensures boardSize % 2 == 0 ==> r == Err(NotOddSize)
    ensures boardSize % 2 == 1 && boardSize < 3 ==> r == Err(SizeBelowThree)
  {
    if boardSize % 2 == 0 then Err(NotOddSize)
    else if boardSize < 3 then Err(SizeBelowThree)
    else Ok(Board(boardSize))
  }

  /** Reconstruction of Board.IsInBoard: both coordinates in [0, size). */
  predicate InBoard(board: Board, p: Position)
  {
    0 <= p.column < board.boardSize && 0 <= p.row < board.boardSize
  }

  /** A board NewBoard accepted has a centre line and distinct east and west edges. */
  lemma ValidBoardShape(boardSize: int)
    requires NewBoard(boardSize).Ok?
    ensures var center := (boardSize - 1) / 2;
      0 < center < boardSize - 1 && 2 * center == boardSize - 1
  {
  }

  /** The board tests: 9 is accepted, 8 and 2 fail the parity check, 1 is too small. */
  lemma NewBoardExamples()
    ensures NewBoard(9) == Ok(Board(9))
    ensures NewBoard(8) == Err(NotOddSize)
    ensures NewBoard(2) == Err(NotOddSize)
    ensures NewBoard(1) == Err(SizeBelowThree)
  {
  }

  /** The IsInBoard tests: on a 9-board (0,1) is inside while (-1,1) is not;
      and every accepted board holds its four corners and nothing one step
      beyond them. */
  lemma IsInBoardExamples(boardSize: int)
    requires NewBoard(boardSize).Ok?
    ensures InBoard(Board(9), Position(0, 1)) && !InBoard(Board(9), Position(-1, 1))
    ensures var b, n := Board(boardSize), boardSize;
      InBoard(b, Position(0, 0)) && InBoard(b, Position(n - 1, 0)) &&
      InBoard(b, Position(0, n - 1)) && InBoard(b, Position(n - 1, n - 1)) &&
      !InBoard(b, Position(-1, 0)) && !InBoard(b, Position(0, -1)) &&
      !InBoard(b, Position(n, 0)) && !InBoard(b, Position(n - 1, -1)) &&
      !InBoard(b, Position(-1, n - 1)) && !InBoard(b, Position(0, n)) &&
      !InBoard(b, Position(n, n - 1)) && !InBoard(b, Position(n - 1, n))
  {
  }
}
