/** Pawn movement. CanMove, GetPossibleMoves and the legal-destination rules are
    called by game.go and pathfinding.go but not defined in the files of this
    model; this module reconstructs them from the behaviour the movement tests fix. */
module Moves {
  import opened Positions
  import opened Boards
  import opened Fences
  import opened Pawns

  /** The three-argument CanMove that Path calls: one step between adjacent
      cells that no fence separates. */
  predicate CanMove(from: Position, to: Position, fences: seq<Fence>)
  {
    Adjacent(from, to) && !StepBlocked(fences, from, to)
  }

  /** The two directions at right angles to `d`. */
  function Perpendiculars(d: Direction): (r: (Direction, Direction))
    requires d != Unknown
    ensures r.0 != Unknown && r.1 != Unknown
  {
    if d == North || d == South then (West, East) else (North, South)
  }

  /** The diagonal landing beside an opponent at `step`, if it is free and reachable. */
  function Diagonal(board: Board, fences: seq<Fence>, pawns: seq<Pawn>, step: Position, side: Direction): (r: set<Position>)
    requires side != Unknown
    ensures forall p :: p in r ==> InBoard(board, p) && !Occupied(pawns, p) && CanMove(step, p, fences)
  {
    var diag := Shift(step, side);
    if InBoard(board, diag) && CanMove(step, diag, fences) && !Occupied(pawns, diag) then {diag} else {}
  }

  /** The destinations one direction contributes: a plain step onto a free cell;
      over an adjacent opponent, the straight jump; and when that jump is off the
      board or fenced, the diagonals beside the opponent. */
  function MovesToward(board: Board, fences: seq<Fence>, pawns: seq<Pawn>, from: Position, d: Direction): (r: set<Position>)
    requires d != Unknown
  {
    var step := Shift(from, d);
    if !InBoard(board, step) || !CanMove(from, step, fences) then {}
    else if !Occupied(pawns, step) then {step}
    else
      var jump := Shift(step, d);
      if InBoard(board, jump) && CanMove(step, jump, fences) then
        if Occupied(pawns, jump) then {} else {jump}
      else
        var sides := Perpendiculars(d);
        Diagonal(board, fences, pawns, step, sides.0) + Diagonal(board, fences, pawns, step, sides.1)
  }

  /** A two-step move that passes over an adjacent pawn without crossing a fence. */
  ghost predicate OverOpponent(fences: seq<Fence>, pawns: seq<Pawn>, from: Position, to: Position)
  {
    exists mid :: Occupied(pawns, mid) && CanMove(from, mid, fences) && CanMove(mid, to, fences)
  }

  /** GetPossibleMoves: the union of the four directions' destinations. */
  function PossibleMoves(board: Board, fences: seq<Fence>, pawns: seq<Pawn>, from: Position): (r: set<Position>)
  {
    MovesToward(board, fences, pawns, from, North) + MovesToward(board, fences, pawns, from, East) +
    MovesToward(board, fences, pawns, from, South) + MovesToward(board, fences, pawns, from, West)
  }

  /** The four-argument CanMove of MovePawn. It is given the board as well, since
      the diagonal rule depends on whether the straight jump leaves the board. */
  predicate CanMovePawn(board: Board, from: Position, to: Position, fences: seq<Fence>, pawns: seq<Pawn>)
  {
    to in PossibleMoves(board, fences, pawns, from)
  }

  /** What one direction offers lies on the board, holds no pawn, and is reached
      by one unblocked step or by two unblocked steps over an occupied cell. */
  lemma MovesTowardSafe(board: Board, fences: seq<Fence>, pawns: seq<Pawn>, from: Position, d: Direction, p: Position)
    requires d != Unknown
    requires p in MovesToward(board, fences, pawns, from, d)
    ensures InBoard(board, p) && !Occupied(pawns, p)
    ensures CanMove(from, p, fences) || OverOpponent(fences, pawns, from, p)
  {
    var step := Shift(from, d);
    if p != step {
      assert Occupied(pawns, step) && CanMove(from, step, fences) && CanMove(step, p, fences);
    }
  }

  /** Legal moves never leave the board, never land on a pawn, and never cross a
      fence: each is a single unblocked step, or two unblocked steps over an
      occupied cell (a jump or a diagonal beside an opponent). */
  lemma PossibleMovesSafe(board: Board, fences: seq<Fence>, pawns: seq<Pawn>, from: Position, p: Position)
    requires p in PossibleMoves(board, fences, pawns, from)
    ensures InBoard(board, p) && !Occupied(pawns, p)
    ensures CanMove(from, p, fences) || OverOpponent(fences, pawns, from, p)
  {
    var d :| d != Unknown && p in MovesToward(board, fences, pawns, from, d);
    MovesTowardSafe(board, fences, pawns, from, d, p);
  }

  /** The three-argument CanMove is symmetric, only ever joins cells that
      GetDirection names, and with no fences it is plain adjacency. */
  lemma CanMoveFacts(from: Position, to: Position, fences: seq<Fence>)
    ensures CanMove(from, to, fences) <==> CanMove(to, from, fences)
    ensures CanMove(from, to, fences) ==> GetDirection(from, to) != Unknown && Shift(from, GetDirection(from, to)) == to
    ensures CanMove(from, to, []) <==> Adjacent(from, to)
  {
    StepBlockedSymmetric(fences, from, to);
  }

  /** A single step is a legal move exactly when it stays on the board, crosses
      no fence and lands on a free cell: no jump or diagonal ends next to its start. */
  lemma CanMovePawnStep(board: Board, from: Position, to: Position, fences: seq<Fence>, pawns: seq<Pawn>)
    requires Adjacent(from, to)
    ensures CanMovePawn(board, from, to, fences, pawns) <==>
      InBoard(board, to) && !StepBlocked(fences, from, to) && !Occupied(pawns, to)
  {
    if InBoard(board, to) && !StepBlocked(fences, from, to) && !Occupied(pawns, to) {
      PlainStepIsLegal(board, fences, pawns, from, GetDirection(from, to));
    }
    if CanMovePawn(board, from, to, fences, pawns) {
      PossibleMovesSafe(board, fences, pawns, from, to);
      OverOpponentNotAdjacent(fences, pawns, from, to);
    }
  }

  /** Two steps over a pawn never end next to the start: each step changes the
      parity of column + row. */
  lemma OverOpponentNotAdjacent(fences: seq<Fence>, pawns: seq<Pawn>, from: Position, to: Position)
    ensures OverOpponent(fences, pawns, from, to) ==> !Adjacent(from, to)
  {
    if OverOpponent(fences, pawns, from, to) {
      var mid :| Occupied(pawns, mid) && CanMove(from, mid, fences) && CanMove(mid, to, fences);
      assert Adjacent(from, mid) && Adjacent(mid, to);
    }
  }

  /** Every legal destination is one or two steps from the start. */
  lemma OfferedIsNear(board: Board, fences: seq<Fence>, pawns: seq<Pawn>, from: Position, to: Position)
    ensures CanMovePawn(board, from, to, fences, pawns) ==>
      Adjacent(from, to) || exists mid :: Adjacent(from, mid) && Adjacent(mid, to)
  {
    if CanMovePawn(board, from, to, fences, pawns) {
      PossibleMovesSafe(board, fences, pawns, from, to);
    }
  }

  /** A free, unblocked neighbour on the board is a legal destination, and the
      only one its direction offers. */
  lemma PlainStepIsLegal(board: Board, fences: seq<Fence>, pawns: seq<Pawn>, from: Position, d: Direction)
    requires d != Unknown
    requires InBoard(board, Shift(from, d)) && !StepBlocked(fences, from, Shift(from, d))
    requires !Occupied(pawns, Shift(from, d))
    ensures MovesToward(board, fences, pawns, from, d) == {Shift(from, d)}
    ensures Shift(from, d) in PossibleMoves(board, fences, pawns, from)
  {
    GetDirectionOfShift(from, d);
  }

  /** A direction whose first step leaves the board or crosses a fence offers nothing. */
  lemma BlockedDirectionOffersNothing(board: Board, fences: seq<Fence>, pawns: seq<Pawn>, from: Position, d: Direction)
    requires d != Unknown
    requires !InBoard(board, Shift(from, d)) || StepBlocked(fences, from, Shift(from, d))
    ensures MovesToward(board, fences, pawns, from, d) == {}
  {
  }

  /** Over an adjacent opponent, an unblocked free cell beyond it on the board is
      a legal destination, and then no diagonal is offered from that direction. */
  lemma StraightJumpIsLegal(board: Board, fences: seq<Fence>, pawns: seq<Pawn>, from: Position, d: Direction)
    requires d != Unknown
    requires InBoard(board, Shift(from, d)) && !StepBlocked(fences, from, Shift(from, d))
    requires Occupied(pawns, Shift(from, d))
    requires InBoard(board, Shift(Shift(from, d), d))
    requires !StepBlocked(fences, Shift(from, d), Shift(Shift(from, d), d))
    requires !Occupied(pawns, Shift(Shift(from, d), d))
    ensures Shift(Shift(from, d), d) in PossibleMoves(board, fences, pawns, from)
    ensures MovesToward(board, fences, pawns, from, d) == {Shift(Shift(from, d), d)}
  {
    GetDirectionOfShift(from, d);
    GetDirectionOfShift(Shift(from, d), d);
  }

  /** When the straight jump over an adjacent opponent leaves the board or is
      fenced, the direction offers exactly the diagonals beside the opponent. */
  lemma DiagonalsWhenJumpUnavailable(board: Board, fences: seq<Fence>, pawns: seq<Pawn>, from: Position, d: Direction)
    requires d != Unknown
    requires InBoard(board, Shift(from, d)) && !StepBlocked(fences, from, Shift(from, d))
    requires Occupied(pawns, Shift(from, d))
    requires !InBoard(board, Shift(Shift(from, d), d)) || StepBlocked(fences, Shift(from, d), Shift(Shift(from, d), d))
    ensures MovesToward(board, fences, pawns, from, d) ==
      Diagonal(board, fences, pawns, Shift(from, d), Perpendiculars(d).0) +
      Diagonal(board, fences, pawns, Shift(from, d), Perpendiculars(d).1)
  {
    GetDirectionOfShift(from, d);
  }

  /** When the straight jump over an adjacent opponent leaves the board, each
      free diagonal beside the opponent that no fence cuts off is legal. */
  lemma DiagonalWhenJumpOffBoard(board: Board, fences: seq<Fence>, pawns: seq<Pawn>, from: Position, d: Direction, side: Direction)
    requires d != Unknown
    requires side == Perpendiculars(d).0 || side == Perpendiculars(d).1
    requires InBoard(board, Shift(from, d)) && !StepBlocked(fences, from, Shift(from, d))
    requires Occupied(pawns, Shift(from, d))
    requires !InBoard(board, Shift(Shift(from, d), d))
    requires InBoard(board, Shift(Shift(from, d), side))
    requires !StepBlocked(fences, Shift(from, d), Shift(Shift(from, d), side))
    requires !Occupied(pawns, Shift(Shift(from, d), side))
    ensures Shift(Shift(from, d), side) in PossibleMoves(board, fences, pawns, from)
  {
    GetDirectionOfShift(from, d);
    GetDirectionOfShift(Shift(from, d), side);
  }

  /** The legal moves split by direction. */
  lemma PossibleMovesByDirection(board: Board, fences: seq<Fence>, pawns: seq<Pawn>, from: Position,
                                 north: set<Position>, east: set<Position>, south: set<Position>, west: set<Position>)
    requires MovesToward(board, fences, pawns, from, North) == north
    requires MovesToward(board, fences, pawns, from, East) == east
    requires MovesToward(board, fences, pawns, from, South) == south
    requires MovesToward(board, fences, pawns, from, West) == west
    ensures PossibleMoves(board, fences, pawns, from) == north + east + south + west
  {
  }

  lemma ThreeSingletons(x: Position, y: Position, z: Position)
    ensures {x} + {y} + {z} + {} == {x, y, z}
  {
  }

  /** From the start of a 3x3 game, with no fences, the first pawn may go north,
      east or south; west is off the board. */
  lemma StartMovesOnThreeBoard(b: Board, fences: seq<Fence>, pawns: seq<Pawn>, from: Position)
    requires b == Board(3) && fences == [] && from == Position(0, 1)
    requires pawns == [Pawn(Position(0, 1), East), Pawn(Position(2, 1), West)]
    ensures PossibleMoves(b, fences, pawns, from) == {Position(0, 0), Position(1, 1), Position(0, 2)}
  {
    OccupiedByTwo(pawns[0], pawns[1], Position(0, 0));
    OccupiedByTwo(pawns[0], pawns[1], Position(1, 1));
    OccupiedByTwo(pawns[0], pawns[1], Position(0, 2));
    PlainStepIsLegal(b, fences, pawns, from, North);
    PlainStepIsLegal(b, fences, pawns, from, East);
    PlainStepIsLegal(b, fences, pawns, from, South);
    BlockedDirectionOffersNothing(b, fences, pawns, from, West);
    PossibleMovesByDirection(b, fences, pawns, from, {Position(0, 0)}, {Position(1, 1)}, {Position(0, 2)}, {});
    ThreeSingletons(Position(0, 0), Position(1, 1), Position(0, 2));
  }

  /** Pawn 1 at (1,1) facing pawn 2 at (2,1), with a horizontal fence at (1,1):
      north and west are plain steps, the fence closes the south, the jump east
      leaves the board, and of the two diagonals only (2,0) is not cut off. */
  lemma FencedJumpMovesOnThreeBoard(b: Board, fences: seq<Fence>, pawns: seq<Pawn>, from: Position)
    requires b == Board(3) && fences == [Fence(Position(1, 1), true)] && from == Position(1, 1)
    requires pawns == [Pawn(Position(1, 1), East), Pawn(Position(2, 1), West)]
    ensures PossibleMoves(b, fences, pawns, from) == {Position(1, 0), Position(2, 0), Position(0, 1)}
  {
    FencedJumpSteps(b, fences, pawns, from);
    FencedJumpEast(b, fences, pawns, from);
    PossibleMovesByDirection(b, fences, pawns, from, {Position(1, 0)}, {Position(2, 0)}, {}, {Position(0, 1)});
    ThreeSingletons(Position(1, 0), Position(2, 0), Position(0, 1));
  }

  /** North and west are plain steps; the fence closes the south. */
  lemma FencedJumpSteps(b: Board, fences: seq<Fence>, pawns: seq<Pawn>, from: Position)
    requires b == Board(3) && fences == [Fence(Position(1, 1), true)] && from == Position(1, 1)
    requires pawns == [Pawn(Position(1, 1), East), Pawn(Position(2, 1), West)]
    ensures MovesToward(b, fences, pawns, from, North) == {Position(1, 0)}
    ensures MovesToward(b, fences, pawns, from, West) == {Position(0, 1)}
    ensures MovesToward(b, fences, pawns, from, South) == {}
  {
    FencedJumpBlocks(fences);
    OccupiedByTwo(pawns[0], pawns[1], Position(1, 0));
    OccupiedByTwo(pawns[0], pawns[1], Position(0, 1));
    PlainStepIsLegal(b, fences, pawns, from, North);
    PlainStepIsLegal(b, fences, pawns, from, West);
    BlockedDirectionOffersNothing(b, fences, pawns, from, South);
  }

  /** Eastward, the jump over the opponent leaves the board; of its diagonals,
      the southern one is cut off by the fence. */
  lemma FencedJumpEast(b: Board, fences: seq<Fence>, pawns: seq<Pawn>, from: Position)
    requires b == Board(3) && fences == [Fence(Position(1, 1), true)] && from == Position(1, 1)
    requires pawns == [Pawn(Position(1, 1), East), Pawn(Position(2, 1), West)]
    ensures MovesToward(b, fences, pawns, from, East) == {Position(2, 0)}
  {
    FencedJumpBlocks(fences);
    OccupiedByTwo(pawns[0], pawns[1], Position(2, 1));
    OccupiedByTwo(pawns[0], pawns[1], Position(2, 0));
    assert Shift(from, East) == Position(2, 1) && Shift(Position(2, 1), East) == Position(3, 1);
    assert Perpendiculars(East) == (North, South);
    assert Shift(Position(2, 1), North) == Position(2, 0) && Shift(Position(2, 1), South) == Position(2, 2);
    DiagonalsWhenJumpUnavailable(b, fences, pawns, from, East);
    assert Diagonal(b, fences, pawns, Position(2, 1), North) == {Position(2, 0)};
    assert Diagonal(b, fences, pawns, Position(2, 1), South) == {};
  }

  /** Which steps around (1,1) and (2,1) the horizontal fence at (1,1) cuts. */
  lemma FencedJumpBlocks(fences: seq<Fence>)
    requires fences == [Fence(Position(1, 1), true)]
    ensures !StepBlocked(fences, Position(1, 1), Position(1, 0)) && !StepBlocked(fences, Position(1, 1), Position(0, 1))
    ensures !StepBlocked(fences, Position(1, 1), Position(2, 1)) && !StepBlocked(fences, Position(2, 1), Position(2, 0))
    ensures StepBlocked(fences, Position(1, 1), Position(1, 2)) && StepBlocked(fences, Position(2, 1), Position(2, 2))
  {
    assert Blocks(fences[0], Position(1, 1), Position(1, 2));
    assert Blocks(fences[0], Position(2, 1), Position(2, 2));
  }
}
