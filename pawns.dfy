/** Pawns (pawn.go): a position and the side of the board the pawn must reach. */
module Pawns {
  import opened Positions

  datatype Pawn = Pawn(position: Position, goal: Direction)

  /** Pawns.IndexOf: the first pawn standing on `e`, comparing positions only, or -1. */
  function PawnIndexOf(pawns: seq<Pawn>, e: Position): (r: int)
    ensures -1 <= r < |pawns|
    ensures r == -1 <==> forall i :: 0 <= i < |pawns| ==> pawns[i].position != e
    ensures 0 <= r ==> pawns[r].position == e
    ensures 0 <= r ==> forall i :: 0 <= i < r ==> pawns[i].position != e
  {
    if |pawns| == 0 then -1
    else if Equals(pawns[0].position, e) then 0
    else
      var k := PawnIndexOf(pawns[1..], e);
      if k == -1 then -1 else k + 1
  }

  /** A cell holds a pawn. */
  predicate Occupied(pawns: seq<Pawn>, p: Position)
  {
    PawnIndexOf(pawns, p) != -1
  }

  /** The goal of a pawn plays no part in the search. */
  lemma {:induction false} PawnIndexOfIgnoresGoal(pawns: seq<Pawn>, i: nat, goal: Direction, e: Position)
    requires i < |pawns|
    ensures PawnIndexOf(pawns[i := pawns[i].(goal := goal)], e) == PawnIndexOf(pawns, e)
    decreases i
  {
    var pawns' := pawns[i := pawns[i].(goal := goal)];
    if i > 0 && pawns[0].position != e {
      PawnIndexOfIgnoresGoal(pawns[1..], i - 1, goal, e);
      assert pawns'[1..] == pawns[1..][i - 1 := pawns[i].(goal := goal)];
    }
  }

  /** With two pawns, a cell is occupied exactly when one of them stands on it. */
  lemma OccupiedByTwo(a: Pawn, b: Pawn, p: Position)
    ensures Occupied([a, b], p) <==> a.position == p || b.position == p
  {
    assert [a, b][0] == a && [a, b][1] == b;
  }
}
