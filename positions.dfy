/** Cell coordinates on the grid (position.go) and the direction constants the
    game package refers to. */
module Positions {

  /** A zero-based (column, row) pair with no implicit bounds. */
  datatype Position = Position(column: int, row: int)

  /** The goal sides and step directions. The constants are not defined in the
      files of this model; this is a reconstruction of the values the tests use. */
  datatype Direction = North | East | South | West | Unknown

  /** A copy of `p` moved `deltaColumn` columns; the receiver is a value, so `p` itself is untouched. */
  function TranslateColumn(p: Position, deltaColumn: int): (r: Position)
    ensures r.column == p.column + deltaColumn
    ensures r.row == p.row
  {
    p.(column := p.column + deltaColumn)
  }

  /** A copy of `p` moved `deltaRow` rows. */
  function TranslateRow(p: Position, deltaRow: int): (r: Position)
    ensures r.row == p.row + deltaRow
    ensures r.column == p.column
  {
    p.(row := p.row + deltaRow)
  }

  /** Coordinate-wise equality. */
  predicate Equals(p: Position, other: Position)
    ensures Equals(p, other) <==> p == other
  {
    other.column == p.column && other.row == p.row
  }

  /** A fresh position offset by (deltaColumn, deltaRow), built by translating a copy. */
  function Copy(p: Position, deltaColumn: int, deltaRow: int): (r: Position)
    ensures r.column - p.column == deltaColumn && r.row - p.row == deltaRow
    ensures deltaColumn == 0 && deltaRow == 0 ==> r == p
  {
    var copy := Position(p.column, p.row);
    var copy' := TranslateColumn(copy, deltaColumn);
    TranslateRow(copy', deltaRow)
  }

  /** Two cells share a side. */
  predicate Adjacent(p: Position, q: Position)
  {
    (p.column == q.column && (p.row - q.row == 1 || q.row - p.row == 1)) ||
    (p.row == q.row && (p.column - q.column == 1 || q.column - p.column == 1))
  }

  /** The cell one step from `p` towards `d`; rows grow to the south. */
  function Shift(p: Position, d: Direction): (q: Position)
    requires d != Unknown
  {
    match d
    case North => Copy(p, 0, -1)
    case East => Copy(p, 1, 0)
    case South => Copy(p, 0, 1)
    case West => Copy(p, -1, 0)
  }

  /** Reconstruction of GetDirection: the direction of a single orthogonal
      step from `from` to `to`, and Unknown for any other offset. */
  function GetDirection(from: Position, to: Position): (d: Direction)
    ensures d != Unknown <==> Adjacent(from, to)
    ensures d != Unknown ==> Shift(from, d) == to
  {
    var dc := to.column - from.column;
    var dr := to.row - from.row;
    if dc == 0 && dr == -1 then North
    else if dc == 1 && dr == 0 then East
    else if dc == 0 && dr == 1 then South
    else if dc == -1 && dr == 0 then West
    else Unknown
  }

  /** Stepping towards a direction and asking for the direction gives it back. */
  lemma GetDirectionOfShift(p: Position, d: Direction)
    requires d != Unknown
    ensures Adjacent(p, Shift(p, d))
    ensures GetDirection(p, Shift(p, d)) == d
  {
  }

  /** The direction cases fixed by the position tests, from (1,1). */
  lemma GetDirectionExamples()
    ensures GetDirection(Position(1, 1), Position(1, 0)) == North
    ensures GetDirection(Position(1, 1), Position(2, 1)) == East
    ensures GetDirection(Position(1, 1), Position(1, 2)) == South
    ensures GetDirection(Position(1, 1), Position(0, 1)) == West
    ensures GetDirection(Position(1, 1), Position(3, 1)) == Unknown
  {
  }
}
