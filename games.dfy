/** The game state machine (game.go): creation, fence placement and pawn moves. */
module Games {
  import opened Wrappers
  import opened Positions
  import opened Boards
  import opened Fences
  import opened Pawns
  import opened Moves
  import opened Pathfinding

  /** A game. The source copies a Game by value, but the copies share the
      backing array of the pawn slice, and a move writes through it; so the
      pawns are an array here and the rest are values. */
  datatype Game = Game(id: string, over: bool, playerTurn: int, pawns: array<Pawn>,
                       fences: seq<Fence>, board: Board)

  /** The rejections of the game, one per error the source returns. */
  datatype GameError =
    | BadBoard(reason: BoardError)
    | FenceGameOver
    | Overlap
    | NoPathToGoal
    | MoveGameOver
    | OutOfBoard
    | Unreachable
    | IllegalMove
    | GoalNotSupported

  /** Every pawn stands on the board (Path indexes its visited grid with them). */
  predicate PawnsInBoard(g: Game)
    reads g.pawns
  {
    forall i :: 0 <= i < g.pawns.Length ==> InBoard(g.board, g.pawns[i].position)
  }

  /** The shape every game NewGame creates keeps: a valid board, two pawns on
      it racing east and west, and a turn that names one of them. */
  predicate ValidGame(g: Game)
    reads g.pawns
  {
    NewBoard(g.board.boardSize).Ok? && g.pawns.Length == 2 &&
    1 <= g.playerTurn <= 2 && PawnsInBoard(g) &&
    g.pawns[0].goal == East && g.pawns[1].goal == West
  }

  /** The pawns of a new game: pawn 1 on the west edge heading east, pawn 2 on
      the east edge heading west, both on the centre row. */
  function InitialPawns(boardSize: int): (r: seq<Pawn>)
    ensures |r| == 2
    ensures r[0] == Pawn(Position(0, (boardSize - 1) / 2), East)
    ensures r[1] == Pawn(Position(boardSize - 1, (boardSize - 1) / 2), West)
    ensures NewBoard(boardSize).Ok? ==>
      (forall i :: 0 <= i < 2 ==>
        InBoard(Board(boardSize), r[i].position) && 2 * r[i].position.row == boardSize - 1 &&
        r[i].position.column != GoalColumn(Board(boardSize), r[i].goal)) &&
      r[0].position != r[1].position
  {
    var lineCenter := (boardSize - 1) / 2;
    [Pawn(Position(0, lineCenter), East), Pawn(Position(boardSize - 1, lineCenter), West)]
  }

  /** NewGame: fails exactly when the board size is rejected; otherwise a fresh
      game with the initial pawns, turn 1, not over and no fences. The id is
      generated by a library in the source and is a parameter here. */
  method NewGame(boardSize: int, id: string) returns (r: Result<Game, GameError>)
    ensures NewBoard(boardSize).Err? ==> r == Err(BadBoard(NewBoard(boardSize).error))
    ensures NewBoard(boardSize).Ok? ==>
      r.Ok? && fresh(r.value.pawns) && r.value.pawns[..] == InitialPawns(boardSize) &&
      r.value == Game(id, false, 1, r.value.pawns, [], Board(boardSize))
    ensures r.Ok? ==> ValidGame(r.value)
  {
    var board := NewBoard(boardSize);
    if board.Err? {
      return Err(BadBoard(board.error));
    }
    var initial := InitialPawns(boardSize);
    var pawns := new Pawn[2](i requires 0 <= i < 2 => initial[i]);
    assert pawns[..] == initial;
    return Ok(Game(id, false, 1, pawns, [], board.value));
  }

  /** whoIsNext: the turn after `playerTurn` among `numberOfPawns` players,
      wrapping from the last back to 1. */
  function WhoIsNext(playerTurn: int, numberOfPawns: int): (r: int)
    ensures 1 <= playerTurn <= numberOfPawns ==>
      1 <= r <= numberOfPawns && r == playerTurn % numberOfPawns + 1
  {
    if playerTurn + 1 > numberOfPawns then 1 else playerTurn + 1
  }

  /** The turn after `k` further turns. */
  function TurnAfter(playerTurn: int, numberOfPawns: int, k: nat): (t: int)
  {
    if k == 0 then playerTurn else WhoIsNext(TurnAfter(playerTurn, numberOfPawns, k - 1), numberOfPawns)
  }

  /** Quotient and remainder are unique: `x == q * n + r` with `0 <= r < n`
      pins down `x / n` and `x % n`. */
  lemma DivModUnique(x: int, n: int, q: int, r: int)
    requires 0 < n && 0 <= r < n && x == q * n + r
    ensures x / n == q && x % n == r
  {
    var q', r' := x / n, x % n;
    assert (q - q') * n == r' - r;
    MultipleBounds(q - q', n);
  }

  /** A nonzero multiple of `n` is at least `n` away from 0. */
  lemma MultipleBounds(d: int, n: int)
    requires 0 < n
    ensures d >= 1 ==> d * n >= n
    ensures d <= -1 ==> d * n <= -n
  {
    if d >= 1 {
      assert d * n == (d - 1) * n + n;
      assert (d - 1) * n >= 0;
    } else if d <= -1 {
      assert d * n == (d + 1) * n - n;
      assert (d + 1) * n <= 0;
    }
  }

  /** The successor of a remainder: (a + 1) mod n is a mod n + 1, or 0 when
      that reaches n. */
  lemma ModSucc(a: nat, n: int)
    requires 0 < n
    ensures (a + 1) % n == if a % n + 1 < n then a % n + 1 else 0
  {
    var q, r := a / n, a % n;
    assert a == q * n + r;
    if r + 1 < n {
      DivModUnique(a + 1, n, q, r + 1);
    } else {
      assert (q + 1) * n == q * n + n;
      DivModUnique(a + 1, n, q + 1, 0);
    }
  }

  /** Turns go round: after `k` turns player `t` is followed by player
      (t - 1 + k) mod n + 1, so after `n` turns it is `t`'s turn again. */
  lemma {:induction false} TurnsCycle(playerTurn: int, numberOfPawns: int, k: nat)
    requires 1 <= playerTurn <= numberOfPawns
    ensures TurnAfter(playerTurn, numberOfPawns, k) == (playerTurn - 1 + k) % numberOfPawns + 1
  {
    if k > 0 {
      TurnsCycle(playerTurn, numberOfPawns, k - 1);
      var a: nat := playerTurn - 1 + k - 1;
      var prev := TurnAfter(playerTurn, numberOfPawns, k - 1);
      assert prev == a % numberOfPawns + 1;
      SmallMod(prev, numberOfPawns);
      ModSucc(a, numberOfPawns);
      assert TurnAfter(playerTurn, numberOfPawns, k) == prev % numberOfPawns + 1;
    }
  }

  /** A value in [0, n] is its own remainder, except n itself, whose remainder is 0. */
  lemma SmallMod(x: int, n: int)
    requires 0 < n && 0 <= x <= n
    ensures x % n == if x < n then x else 0
  {
    if x < n {
      DivModUnique(x, n, 0, x);
    } else {
      DivModUnique(x, n, 1, 0);
    }
  }

  /** Corollary: after as many turns as there are players, the turn is back. */
  lemma TurnReturns(playerTurn: int, numberOfPawns: int)
    requires 1 <= playerTurn <= numberOfPawns
    ensures TurnAfter(playerTurn, numberOfPawns, numberOfPawns) == playerTurn
  {
    TurnsCycle(playerTurn, numberOfPawns, numberOfPawns);
    DivModUnique(playerTurn - 1 + numberOfPawns, numberOfPawns, 1, playerTurn - 1);
  }

  /** getCurrentPawn: the pawn whose turn it is. */
  function GetCurrentPawn(g: Game): (p: Pawn)
    reads g.pawns
    requires 1 <= g.playerTurn <= g.pawns.Length
    ensures p in g.pawns[..]
  {
    g.pawns[g.playerTurn - 1]
  }

  /** In a valid game the pawn whose turn it is stands on the board, heads east
      exactly on turn 1, and has a goal isOver can judge. */
  lemma CurrentPawnFacts(g: Game)
    requires ValidGame(g)
    ensures InBoard(g.board, GetCurrentPawn(g).position)
    ensures GetCurrentPawn(g).goal == East <==> g.playerTurn == 1
    ensures IsOver(g.board, GetCurrentPawn(g)).Ok?
  {
  }

  /** The column a pawn must reach: the last for EAST, 0 otherwise (the source
      leaves the column at its zero value for any other goal). */
  function GoalColumn(board: Board, goal: Direction): (c: int)
  {
    if goal == East then board.boardSize - 1 else 0
  }

  /** The cells of the goal column, from row 0 down. */
  function GoalLine(board: Board, goal: Direction): (r: seq<Position>)
    ensures |r| == if board.boardSize < 0 then 0 else board.boardSize
    ensures forall p :: p in r <==> InBoard(board, p) && p.column == GoalColumn(board, goal)
    ensures forall row :: 0 <= row < |r| ==> r[row].row == row
  {
    var n := if board.boardSize < 0 then 0 else board.boardSize;
    var r := seq(n, row => Position(GoalColumn(board, goal), row));
    assert forall p :: InBoard(board, p) && p.column == GoalColumn(board, goal) ==> r[p.row] == p;
    r
  }

  /** getGoalLine: builds the goal column by appending one cell per row. */
  method GetGoalLine(board: Board, pawn: Pawn) returns (destinations: seq<Position>)
    ensures destinations == GoalLine(board, pawn.goal)
  {
    destinations := [];
    var column := 0;
    if pawn.goal == East {
      column := board.boardSize - 1;
    } else if pawn.goal == West {
      column := 0;
    }
    var row := 0;
    while row < board.boardSize
      invariant 0 <= row && (board.boardSize >= 0 ==> row <= board.boardSize)
      invariant board.boardSize < 0 ==> row == 0
      invariant destinations == GoalLine(board, pawn.goal)[..row]
    {
      destinations := destinations + [Position(column, row)];
      row := row + 1;
    }
    assert destinations == GoalLine(board, pawn.goal);
  }

  /** isOver: whether the current pawn stands on its goal column; an error for
      a goal other than EAST or WEST. */
  function IsOver(board: Board, pawn: Pawn): (r: Result<bool, GameError>)
    ensures r.Ok? <==> pawn.goal == East || pawn.goal == West
    ensures r.Err? ==> r.error == GoalNotSupported
    ensures r.Ok? && InBoard(board, pawn.position) ==>
      (r.value <==> pawn.position in GoalLine(board, pawn.goal))
  {
    if pawn.goal == East then Ok(pawn.position.column == board.boardSize - 1)
    else if pawn.goal == West then Ok(pawn.position.column == 0)
    else Err(GoalNotSupported)
  }

  /** A placed fence rules out a candidate with the same anchor, whatever the
      orientations, or one of the same orientation anchored next to it: east
      or west for horizontal fences, north or south for vertical ones. */
  predicate Overlaps(placed: Fence, candidate: Fence)
  {
    var ps := NewPositionSquare(candidate.nwSquare);
    placed.nwSquare == candidate.nwSquare ||
    (placed.horizontal == candidate.horizontal &&
     if candidate.horizontal then placed.nwSquare == ps.east || placed.nwSquare == ps.west
     else placed.nwSquare == ps.north || placed.nwSquare == ps.south)
  }

  /** Some placed fence rules the candidate out. */
  predicate Overlapping(fences: seq<Fence>, candidate: Fence)
  {
    exists i :: 0 <= i < |fences| && Overlaps(fences[i], candidate)
  }

  /** Overlap does not depend on which of the two fences came first. */
  lemma OverlapsSymmetric(a: Fence, b: Fence)
    ensures Overlaps(a, b) <==> Overlaps(b, a)
  {
    PositionSquareSymmetric(a.nwSquare, b.nwSquare);
  }

  /** hasAlreadyAFenceAtTheSamePosition: some placed fence has anchor `p`. */
  method HasAlreadyAFenceAtTheSamePosition(fences: seq<Fence>, p: Position) returns (r: bool)
    ensures r <==> exists i :: 0 <= i < |fences| && fences[i].nwSquare == p
  {
    for i := 0 to |fences|
      invariant forall j :: 0 <= j < i ==> fences[j].nwSquare != p
    {
      if Equals(fences[i].nwSquare, p) {
        return true;
      }
    }
    return false;
  }

  /** hasNeighbourFence: some placed fence of the given orientation is anchored
      east or west (horizontal) or north or south (vertical) of the candidate. */
  method HasNeighbourFence(fences: seq<Fence>, isHorizontal: bool, ps: PositionSquare) returns (r: bool)
    ensures r <==> exists i :: 0 <= i < |fences| && fences[i].horizontal == isHorizontal &&
                               (if isHorizontal then fences[i].nwSquare == ps.east || fences[i].nwSquare == ps.west
                                else fences[i].nwSquare == ps.north || fences[i].nwSquare == ps.south)
  {
    if isHorizontal {
      for i := 0 to |fences|
        invariant forall j :: 0 <= j < i ==>
          !(fences[j].horizontal && (fences[j].nwSquare == ps.east || fences[j].nwSquare == ps.west))
      {
        var fence := fences[i];
        var pos := fence.nwSquare;
        if fence.horizontal && (Equals(pos, ps.east) || Equals(pos, ps.west)) {
          return true;
        }
      }
      return false;
    }
    for i := 0 to |fences|
      invariant forall j :: 0 <= j < i ==>
        !(!fences[j].horizontal && (fences[j].nwSquare == ps.north || fences[j].nwSquare == ps.south))
    {
      var fence := fences[i];
      var pos := fence.nwSquare;
      if !fence.horizontal && (Equals(pos, ps.north) || Equals(pos, ps.south)) {
        return true;
      }
    }
    return false;
  }

  /** With `f` added, every pawn can still reach its goal column. */
  ghost predicate Crossable(g: Game, f: Fence)
    reads g.pawns
  {
    forall i :: 0 <= i < g.pawns.Length ==>
      Reachable(g.board, g.fences + [f], g.pawns[i].position, GoalLine(g.board, g.pawns[i].goal))
  }

  /** IsCrossable: runs Path from every pawn to its goal line with `f` added. */
  method IsCrossable(g: Game, f: Fence) returns (r: bool)
    requires PawnsInBoard(g)
    ensures r <==> Crossable(g, f)
  {
    var fences := g.fences + [f];
    for i := 0 to g.pawns.Length
      invariant forall j :: 0 <= j < i ==>
        Reachable(g.board, fences, g.pawns[j].position, GoalLine(g.board, g.pawns[j].goal))
    {
      var pawn := g.pawns[i];
      var destinations := GetGoalLine(g.board, pawn);
      var d := Path(g.board, fences, pawn.position, destinations);
      if d == -1 {
        return false;
      }
    }
    return true;
  }

  /** AddFence: rejects when the game is over, then an overlapping fence, then
      a fence that cuts a pawn off its goal column; otherwise appends the fence
      and passes the turn. The pawns and `over` are untouched. */
  method AddFence(g: Game, fence: Fence) returns (r: Result<Game, GameError>)
    requires PawnsInBoard(g)
    ensures g.over ==> r == Err(FenceGameOver)
    ensures !g.over && Overlapping(g.fences, fence) ==> r == Err(Overlap)
    ensures !g.over && !Overlapping(g.fences, fence) && !Crossable(g, fence) ==> r == Err(NoPathToGoal)
    ensures !g.over && !Overlapping(g.fences, fence) && Crossable(g, fence) ==>
      r == Ok(g.(fences := g.fences + [fence], playerTurn := WhoIsNext(g.playerTurn, g.pawns.Length)))
  {
    if g.over {
      return Err(FenceGameOver);
    }
    var positionSquare := NewPositionSquare(fence.nwSquare);
    var samePosition := HasAlreadyAFenceAtTheSamePosition(g.fences, fence.nwSquare);
    var neighbour := HasNeighbourFence(g.fences, fence.horizontal, positionSquare);
    if samePosition || neighbour {
      return Err(Overlap);
    }
    var crossable := IsCrossable(g, fence);
    if !crossable {
      return Err(NoPathToGoal);
    }
    var g' := g.(fences := g.fences + [fence]);
    return Ok(g'.(playerTurn := WhoIsNext(g'.playerTurn, g'.pawns.Length)));
  }

  /** A fence AddFence accepts keeps the game valid. */
  lemma AddFenceKeepsValid(g: Game, fence: Fence)
    requires ValidGame(g)
    ensures ValidGame(g.(fences := g.fences + [fence], playerTurn := WhoIsNext(g.playerTurn, g.pawns.Length)))
  {
  }

  /** The checks MovePawn makes before it moves, in order, with the direction
      check of the source left out (see the as-written version below): game
      over, destination on the board, and the movement rules. */
  function MoveCheck(over: bool, board: Board, from: Position, destination: Position,
                     fences: seq<Fence>, pawns: seq<Pawn>): (r: Option<GameError>)
    ensures r.None? <==> !over && InBoard(board, destination) && CanMovePawn(board, from, destination, fences, pawns)
    ensures over ==> r == Some(MoveGameOver)
    ensures !over && !InBoard(board, destination) ==> r == Some(OutOfBoard)
  {
    if over then Some(MoveGameOver)
    else if !InBoard(board, destination) then Some(OutOfBoard)
    else if !CanMovePawn(board, from, destination, fences, pawns) then Some(IllegalMove)
    else None
  }

  /** A destination MoveCheck accepts is free, and reached by one unblocked
      step or by two unblocked steps over a pawn. */
  lemma AcceptedMoveIsSafe(over: bool, board: Board, from: Position, destination: Position,
                           fences: seq<Fence>, pawns: seq<Pawn>)
    requires MoveCheck(over, board, from, destination, fences, pawns).None?
    ensures !Occupied(pawns, destination)
    ensures CanMove(from, destination, fences) || OverOpponent(fences, pawns, from, destination)
  {
    PossibleMovesSafe(board, fences, pawns, from, destination);
  }

  /** The checks as the source writes them: a destination GetDirection cannot
      name is rejected before the movement rules are consulted, so only single
      steps ever get through. */
  function MoveCheckAsWritten(over: bool, board: Board, from: Position, destination: Position,
                              fences: seq<Fence>, pawns: seq<Pawn>): (r: Option<GameError>)
    ensures r.None? <==> Adjacent(from, destination) && MoveCheck(over, board, from, destination, fences, pawns).None?
    ensures over ==> r == Some(MoveGameOver)
    ensures !over && !InBoard(board, destination) ==> r == Some(OutOfBoard)
    ensures !over && InBoard(board, destination) && !Adjacent(from, destination) ==> r == Some(Unreachable)
  {
    if over then Some(MoveGameOver)
    else if !InBoard(board, destination) then Some(OutOfBoard)
    else if GetDirection(from, destination) == Unknown then Some(Unreachable)
    else if !CanMovePawn(board, from, destination, fences, pawns) then Some(IllegalMove)
    else None
  }

  /** setCurrentPawnPosition: writes the new position into the shared pawn array. */
  method SetCurrentPawnPosition(g: Game, newPosition: Position)
    requires 1 <= g.playerTurn <= g.pawns.Length
    modifies g.pawns
    ensures g.pawns[..] == old(g.pawns[..])[g.playerTurn - 1 := old(g.pawns[g.playerTurn - 1]).(position := newPosition)]
  {
    g.pawns[g.playerTurn - 1] := g.pawns[g.playerTurn - 1].(position := newPosition);
  }

  /** Moving the current pawn of a valid game to a cell of the board and
      passing the turn keeps the game valid. */
  lemma MoveKeepsValid(g: Game, before: seq<Pawn>, destination: Position, over: bool)
    requires |before| == g.pawns.Length == 2 && 1 <= g.playerTurn <= 2
    requires NewBoard(g.board.boardSize).Ok? && InBoard(g.board, destination)
    requires forall i :: 0 <= i < 2 ==> InBoard(g.board, before[i].position)
    requires before[0].goal == East && before[1].goal == West
    requires g.pawns[..] == before[g.playerTurn - 1 := before[g.playerTurn - 1].(position := destination)]
    ensures ValidGame(g.(over := over, playerTurn := WhoIsNext(g.playerTurn, 2)))
  {
    assert g.pawns[0] == g.pawns[..][0] && g.pawns[1] == g.pawns[..][1];
  }

  /** The end of MovePawn once the move is accepted: the current pawn moves,
      then the game is over when it stands on its goal column, and the turn
      passes. */
  method FinishMove(g: Game, destination: Position) returns (r: Result<Game, GameError>)
    requires 1 <= g.playerTurn <= g.pawns.Length
    modifies g.pawns
    ensures var moved := old(g.pawns[g.playerTurn - 1]).(position := destination);
      var over := IsOver(g.board, moved);
      g.pawns[..] == old(g.pawns[..])[g.playerTurn - 1 := moved] &&
      (over.Err? ==> r == Err(over.error)) &&
      (over.Ok? ==> r == Ok(g.(over := over.value, playerTurn := WhoIsNext(g.playerTurn, g.pawns.Length))))
    ensures old(ValidGame(g)) && InBoard(g.board, destination) ==>
      r.Ok? && ValidGame(r.value) && (r.value.over <==> destination in GoalLine(g.board, g.pawns[g.playerTurn - 1].goal))
  {
    ghost var before := g.pawns[..];
    ghost var valid := ValidGame(g);
    SetCurrentPawnPosition(g, destination);
    var moved := GetCurrentPawn(g);
    assert moved == before[g.playerTurn - 1].(position := destination);
    var over := IsOver(g.board, moved);
    if over.Err? {
      return Err(over.error);
    }
    if valid && InBoard(g.board, destination) {
      MoveKeepsValid(g, before, destination, over.value);
    }
    r := Ok(g.(over := over.value, playerTurn := WhoIsNext(g.playerTurn, g.pawns.Length)));
  }

  /** The checks at the head of MovePawn, in the source's order and without its
      direction check (as MoveCheck); the pawns are only read. */
  method CheckMove(g: Game, destination: Position) returns (check: Option<GameError>)
    requires 1 <= g.playerTurn <= g.pawns.Length
    ensures check == MoveCheck(g.over, g.board, g.pawns[g.playerTurn - 1].position, destination, g.fences, g.pawns[..])
  {
    var from := GetCurrentPawn(g).position;
    var pawns := g.pawns[..];
    ghost var expected := MoveCheck(g.over, g.board, from, destination, g.fences, pawns);
    if g.over {
      assert expected == Some(MoveGameOver);
      return Some(MoveGameOver);
    }
    if !InBoard(g.board, destination) {
      assert expected == Some(OutOfBoard);
      return Some(OutOfBoard);
    }
    if !CanMovePawn(g.board, from, destination, g.fences, pawns) {
      assert expected == Some(IllegalMove);
      return Some(IllegalMove);
    }
    assert expected.None?;
    return None;
  }

  /** MovePawn: after MoveCheck accepts, moves the current pawn (through the
      shared array), then sets `over` when it stands on its goal column and
      passes the turn. An unsupported goal is reported after the pawn moved. */
  method MovePawn(g: Game, destination: Position) returns (r: Result<Game, GameError>)
    requires 1 <= g.playerTurn <= g.pawns.Length
    modifies g.pawns
    ensures var check := MoveCheck(g.over, g.board, old(g.pawns[g.playerTurn - 1].position), destination, g.fences, old(g.pawns[..]));
      check.Some? ==> r == Err(check.value) && g.pawns[..] == old(g.pawns[..])
    ensures var check := MoveCheck(g.over, g.board, old(g.pawns[g.playerTurn - 1].position), destination, g.fences, old(g.pawns[..]));
      var moved := old(g.pawns[g.playerTurn - 1]).(position := destination);
      var over := IsOver(g.board, moved);
      check.None? ==>
        g.pawns[..] == old(g.pawns[..])[g.playerTurn - 1 := moved] &&
        (over.Err? ==> r == Err(over.error)) &&
        (over.Ok? ==> r == Ok(g.(over := over.value, playerTurn := WhoIsNext(g.playerTurn, g.pawns.Length))))
    ensures old(ValidGame(g)) ==>
      (r.Ok? <==> MoveCheck(g.over, g.board, old(g.pawns[g.playerTurn - 1].position), destination, g.fences, old(g.pawns[..])).None?)
    ensures old(ValidGame(g)) && r.Ok? ==>
      ValidGame(r.value) && (r.value.over <==> destination in GoalLine(g.board, g.pawns[g.playerTurn - 1].goal))
  {
    var check := CheckMove(g, destination);
    if check.Some? {
      return Err(check.value);
    }
    r := FinishMove(g, destination);
  }

  /** With one or two placed fences, overlap is decided fence by fence. */
  lemma OverlappingByTwo(a: Fence, b: Fence, candidate: Fence)
    ensures Overlapping([a], candidate) <==> Overlaps(a, candidate)
    ensures Overlapping([a, b], candidate) <==> Overlaps(a, candidate) || Overlaps(b, candidate)
  {
    assert [a][0] == a;
    assert [a, b][0] == a && [a, b][1] == b;
  }

  /** A fence is refused on the anchor of a placed fence, whatever the two
      orientations. */
  lemma SameAnchorOverlaps(h00: Fence, v00: Fence)
    requires h00 == Fence(Position(0, 0), true) && v00 == Fence(Position(0, 0), false)
    ensures Overlapping([v00], h00) && Overlapping([h00], v00)
  {
    OverlappingByTwo(v00, v00, h00);
    OverlappingByTwo(h00, h00, v00);
  }

  /** A fence is refused next to a placed fence of its own orientation: east
      or west of a horizontal one, north or south of a vertical one. */
  lemma NeighbourOverlaps(h00: Fence, h10: Fence, v00: Fence, v01: Fence)
    requires h00 == Fence(Position(0, 0), true) && h10 == Fence(Position(1, 0), true)
    requires v00 == Fence(Position(0, 0), false) && v01 == Fence(Position(0, 1), false)
    ensures Overlapping([h00], h10) && Overlapping([h10], h00)
    ensures Overlapping([v00], v01) && Overlapping([v01], v00)
  {
    OverlappingByTwo(h00, h00, h10);
    OverlappingByTwo(h10, h10, h00);
    OverlappingByTwo(v00, v00, v01);
    OverlappingByTwo(v01, v01, v00);
  }

  /** A fence crossing the gap between two placed fences of the other
      orientation overlaps neither of them: it passes the overlap checks of
      AddFence (its path check is not pinned here). */
  lemma CrossingFencesDoNotOverlap(h00: Fence, h20: Fence, v10: Fence, v00: Fence, v02: Fence, h01: Fence)
    requires h00 == Fence(Position(0, 0), true) && h20 == Fence(Position(2, 0), true)
    requires v10 == Fence(Position(1, 0), false)
    requires v00 == Fence(Position(0, 0), false) && v02 == Fence(Position(0, 2), false)
    requires h01 == Fence(Position(0, 1), true)
    ensures !Overlapping([h00, h20], v10) && !Overlapping([v00, v02], h01)
  {
    OverlappingByTwo(h00, h20, v10);
    OverlappingByTwo(v00, v02, h01);
  }

  /** On the 3x3 board, a vertical fence at (0,0) and a horizontal one at (0,1)
      wall pawn 1 into the two west cells of rows 0 and 1: AddFence refuses the
      second fence with NoPathToGoal. */
  lemma ClosingFenceCutsGoal(g: Game, fence: Fence)
    requires g.board == Board(3) && g.fences == [Fence(Position(0, 0), false)]
    requires fence == Fence(Position(0, 1), true)
    requires g.pawns.Length == 2 && g.pawns[0] == Pawn(Position(0, 1), East)
    ensures !Overlapping(g.fences, fence)
    ensures !Crossable(g, fence)
  {
    var goal := GoalLine(g.board, East);
    assert goal == [Position(2, 0), Position(2, 1), Position(2, 2)];
    NoPathWithFences(g.board, g.fences + [fence], Position(0, 1), goal);
  }

  /** The fence-crossing move test: after pawn 1 places a vertical fence at
      (1,0), the turn passes to pawn 2, whose step west from (2,1) to (1,1)
      crosses that fence; both the source's checks and the corrected ones
      refuse it as an illegal move. */
  lemma FenceStopsMove(b: Board, fences: seq<Fence>, pawns: seq<Pawn>, from: Position, to: Position)
    requires b == Board(3) && fences == [Fence(Position(1, 0), false)]
    requires pawns == [Pawn(Position(0, 1), East), Pawn(Position(2, 1), West)]
    requires from == pawns[WhoIsNext(1, 2) - 1].position && to == Position(1, 1)
    ensures WhoIsNext(1, 2) == 2
    ensures MoveCheck(false, b, from, to, fences, pawns) == Some(IllegalMove)
    ensures MoveCheckAsWritten(false, b, from, to, fences, pawns) == Some(IllegalMove)
  {
    assert from == Position(2, 1);
    assert Blocks(fences[0], from, to);
    CanMovePawnStep(b, from, to, fences, pawns);
  }

  /** The source's direction check refuses the straight jump of the jump test
      (pawn 2 at (2,1) over pawn 1 at (1,1) to (0,1)), which the movement
      rules allow; the corrected check accepts it. */
  lemma JumpRefusedAsWritten(b: Board, fences: seq<Fence>, pawns: seq<Pawn>, from: Position, to: Position)
    requires b == Board(3) && fences == [] && from == Position(2, 1) && to == Position(0, 1)
    requires pawns == [Pawn(Position(1, 1), East), Pawn(Position(2, 1), West)]
    ensures MoveCheckAsWritten(false, b, from, to, fences, pawns) == Some(Unreachable)
    ensures MoveCheck(false, b, from, to, fences, pawns) == None
  {
    OccupiedByTwo(pawns[0], pawns[1], Position(1, 1));
    OccupiedByTwo(pawns[0], pawns[1], Position(0, 1));
    StraightJumpIsLegal(b, fences, pawns, from, West);
  }

  /** From the start, pawn 1 cannot go to (2,2): the source reports it as
      unreachable by direction, where its test expects the movement-rule
      refusal that the corrected check gives. */
  lemma FarMoveRefused(b: Board, fences: seq<Fence>, pawns: seq<Pawn>, from: Position, to: Position)
    requires b == Board(3) && fences == [] && from == Position(0, 1) && to == Position(2, 2)
    requires pawns == [Pawn(Position(0, 1), East), Pawn(Position(2, 1), West)]
    ensures MoveCheckAsWritten(false, b, from, to, fences, pawns) == Some(Unreachable)
    ensures MoveCheck(false, b, from, to, fences, pawns) == Some(IllegalMove)
  {
    assert !Adjacent(from, to);
    FarMoveIllegal(b, fences, pawns, from, to);
  }

  /** The corrected half of FarMoveRefused: (2,2) is more than two steps from
      (0,1), so no movement rule offers it. */
  lemma FarMoveIllegal(b: Board, fences: seq<Fence>, pawns: seq<Pawn>, from: Position, to: Position)
    requires b == Board(3) && fences == [] && from == Position(0, 1) && to == Position(2, 2)
    requires pawns == [Pawn(Position(0, 1), East), Pawn(Position(2, 1), West)]
    ensures MoveCheck(false, b, from, to, fences, pawns) == Some(IllegalMove)
  {
    forall mid | Adjacent(from, mid)
      ensures !Adjacent(mid, to)
    {
    }
    FarIsIllegal(b, from, to, fences, pawns);
  }

  /** A destination on the board more than two steps away is an illegal move
      of a live game. */
  lemma FarIsIllegal(board: Board, from: Position, to: Position, fences: seq<Fence>, pawns: seq<Pawn>)
    requires InBoard(board, to) && !Adjacent(from, to)
    requires forall mid :: Adjacent(from, mid) ==> !Adjacent(mid, to)
    ensures MoveCheck(false, board, from, to, fences, pawns) == Some(IllegalMove)
  {
    OfferedIsNear(board, fences, pawns, from, to);
  }
}
