/** Breadth-first search from a cell to a set of destination cells (pathfinding.go). */
module Pathfinding {
  import opened Positions
  import opened Boards
  import opened Fences
  import opened Moves
  import Lists

  /** An entry of the search queue: a cell and its distance from the source. */
  datatype QueueNode = QueueNode(position: Position, distance: int)

  /** `p` is reachable from `src` in at most `k` steps, each onto a cell of the
      board from an adjacent cell that no fence separates from it. */
  ghost predicate Within(board: Board, fences: seq<Fence>, src: Position, p: Position, k: nat)
    decreases k
  {
    p == src ||
    (k > 0 && InBoard(board, p) &&
     exists q :: CanMove(q, p, fences) && Within(board, fences, src, q, k - 1))
  }

  /** Some destination is reachable within `k` steps. */
  ghost predicate ReachedWithin(board: Board, fences: seq<Fence>, src: Position, dest: seq<Position>, k: nat)
  {
    exists x :: x in dest && Within(board, fences, src, x, k)
  }

  /** Some destination is reachable at all. */
  ghost predicate Reachable(board: Board, fences: seq<Fence>, src: Position, dest: seq<Position>)
  {
    exists k: nat :: ReachedWithin(board, fences, src, dest, k)
  }

  /** The cells of the board. */
  ghost function Cells(board: Board): (c: set<Position>)
  {
    set c, r | 0 <= c < board.boardSize && 0 <= r < board.boardSize :: Position(c, r)
  }

  /** The cells waiting in the queue. */
  ghost function Queued(q: seq<QueueNode>): (s: set<Position>)
  {
    set i | 0 <= i < |q| :: q[i].position
  }

  /** The visited grid marks exactly the seen cells. */
  ghost predicate Marks(visited: array2<bool>, board: Board, seen: set<Position>)
    reads visited
  {
    visited.Length0 == board.boardSize && visited.Length1 == board.boardSize &&
    forall c, r :: 0 <= c < board.boardSize && 0 <= r < board.boardSize ==>
      (visited[c, r] <==> Position(c, r) in seen)
  }

  /** The queue holds distinct cells, in order of distance, all at distance
      `level` or `level + 1`, each with its exact distance from the source. */
  ghost predicate QueueOk(board: Board, fences: seq<Fence>, src: Position, q: seq<QueueNode>, level: nat)
  {
    (forall i, j :: 0 <= i < j < |q| ==> q[i].position != q[j].position) &&
    (forall i, j :: 0 <= i <= j < |q| ==> q[i].distance <= q[j].distance) &&
    (forall i :: 0 <= i < |q| ==>
      level <= q[i].distance <= level + 1 && Within(board, fences, src, q[i].position, q[i].distance)) &&
    (forall i, k: nat :: 0 <= i < |q| && Within(board, fences, src, q[i].position, k) ==> q[i].distance <= k)
  }

  /** Every cell one unblocked step away from a dequeued cell (other than those
      in `except`) has been seen. */
  ghost predicate ClosedOk(board: Board, fences: seq<Fence>, closed: set<Position>,
                           seen: set<Position>, except: set<Position>)
  {
    forall c, x :: c in closed && c !in except && InBoard(board, x) && CanMove(c, x, fences) ==> x in seen
  }

  /** Every cell reachable in fewer than `level` steps has been dequeued. */
  ghost predicate LevelDone(board: Board, fences: seq<Fence>, src: Position, closed: set<Position>, level: nat)
  {
    forall c, k: nat :: Within(board, fences, src, c, k) && k < level ==> c in closed
  }

  lemma QueueOkAppend(board: Board, fences: seq<Fence>, src: Position, q: seq<QueueNode>, level: nat, p: Position)
    requires QueueOk(board, fences, src, q, level) && p !in Queued(q)
    requires Within(board, fences, src, p, level + 1)
    requires forall k: nat :: Within(board, fences, src, p, k) ==> level + 1 <= k
    ensures QueueOk(board, fences, src, q + [QueueNode(p, level + 1)], level)
    ensures Queued(q + [QueueNode(p, level + 1)]) == Queued(q) + {p}
  {
    var q' := q + [QueueNode(p, level + 1)];
    assert q'[|q|].position == p;
    forall x | x in Queued(q)
      ensures x in Queued(q')
    {
      var i :| 0 <= i < |q| && q[i].position == x;
      assert q'[i].position == x;
    }
    forall i, j | 0 <= i < j < |q'|
      ensures q'[i].position != q'[j].position
    {
      if j == |q| {
        assert q[i].position in Queued(q);
      }
    }
  }

  lemma QueueOkTail(board: Board, fences: seq<Fence>, src: Position, q: seq<QueueNode>, level: nat)
    requires |q| > 0 && QueueOk(board, fences, src, q, level)
    ensures QueueOk(board, fences, src, q[1..], level)
    ensures Queued(q[1..]) == Queued(q) - {q[0].position}
  {
    var t := q[1..];
    forall x | x in Queued(q) - {q[0].position}
      ensures x in Queued(t)
    {
      var i :| 0 <= i < |q| && q[i].position == x;
      assert t[i - 1].position == x;
    }
    forall x | x in Queued(t)
      ensures x in Queued(q) - {q[0].position}
    {
      var i :| 0 <= i < |t| && t[i].position == x;
      assert q[i + 1].position == x;
    }
  }

  /** When the head of the queue is at distance `level + 1`, the whole queue is. */
  lemma QueueOkRebase(board: Board, fences: seq<Fence>, src: Position, q: seq<QueueNode>, level: nat)
    requires |q| > 0 && q[0].distance == level + 1 && QueueOk(board, fences, src, q, level)
    ensures QueueOk(board, fences, src, q, level + 1)
    ensures forall i :: 0 <= i < |q| ==> q[i].distance == level + 1
  {
    forall i | 0 <= i < |q|
      ensures q[i].distance == level + 1
    {
      assert q[0].distance <= q[i].distance;
    }
  }

  /** A set that holds the source and every in-board cell one unblocked step
      away from each of its members holds every reachable cell. */
  lemma {:induction false} ClosedSetHoldsReachable(board: Board, fences: seq<Fence>, src: Position, s: set<Position>, p: Position, k: nat)
    requires src in s
    requires ClosedOk(board, fences, s, s, {})
    requires Within(board, fences, src, p, k)
    ensures p in s
    decreases k
  {
    if p != src {
      var q :| CanMove(q, p, fences) && Within(board, fences, src, q, k - 1);
      ClosedSetHoldsReachable(board, fences, src, s, q, k - 1);
    }
  }

  /** When the queue moves on from distance `level` to `level + 1`, every cell
      reachable within `level` steps has already been dequeued. */
  lemma AdvanceLevel(board: Board, fences: seq<Fence>, src: Position, q: seq<QueueNode>,
                     seen: set<Position>, closed: set<Position>, level: nat)
    requires src in seen && seen == closed + Queued(q)
    requires forall i :: 0 <= i < |q| ==> q[i].distance == level + 1
    requires QueueOk(board, fences, src, q, level)
    requires ClosedOk(board, fences, closed, seen, {})
    requires LevelDone(board, fences, src, closed, level)
    ensures LevelDone(board, fences, src, closed, level + 1)
  {
    forall c, k: nat | Within(board, fences, src, c, k) && k < level + 1
      ensures c in closed
    {
      if k == level {
        assert c in seen by {
          if c != src {
            var w :| CanMove(w, c, fences) && Within(board, fences, src, w, k - 1);
          }
        }
      }
    }
  }

  /** A cell other than the source reached within `k` steps is one step from
      a cell reached within `k - 1`. */
  lemma StepBack(board: Board, fences: seq<Fence>, src: Position, p: Position, k: nat)
    requires Within(board, fences, src, p, k) && p != src
    ensures k > 0 && exists w :: CanMove(w, p, fences) && Within(board, fences, src, w, k - 1)
  {
  }

  /** A cell first discovered from the cell just dequeued at distance `level`
      is at distance exactly `level + 1`. */
  lemma Discovered(board: Board, fences: seq<Fence>, src: Position, seen: set<Position>,
                   closed: set<Position>, pos: Position, level: nat, p: Position)
    requires src in seen && p !in seen && pos in closed
    requires InBoard(board, p) && CanMove(pos, p, fences)
    requires Within(board, fences, src, pos, level)
    requires forall k: nat :: Within(board, fences, src, pos, k) ==> level <= k
    requires ClosedOk(board, fences, closed, seen, {pos})
    requires LevelDone(board, fences, src, closed, level)
    ensures Within(board, fences, src, p, level + 1)
    ensures forall k: nat :: Within(board, fences, src, p, k) ==> level + 1 <= k
  {
    assert Within(board, fences, src, p, level + 1) by {
      assert CanMove(pos, p, fences) && Within(board, fences, src, pos, (level + 1) - 1);
    }
    forall k: nat | Within(board, fences, src, p, k)
      ensures level + 1 <= k
    {
      StepBack(board, fences, src, p, k);
      var w :| CanMove(w, p, fences) && Within(board, fences, src, w, k - 1);
    }
  }

  /** The search invariant: `seen` = dequeued (`closed`) + queued cells, all on
      the board; the queue is well formed at `level`; the neighbours of every
      dequeued cell outside `except` are seen; every cell closer than `level`
      is dequeued. */
  ghost predicate SearchInv(board: Board, fences: seq<Fence>, src: Position, q: seq<QueueNode>,
                            seen: set<Position>, closed: set<Position>, level: nat, except: set<Position>)
  {
    seen <= Cells(board) && src in seen &&
    seen == closed + Queued(q) && closed !! Queued(q) &&
    QueueOk(board, fences, src, q, level) &&
    ClosedOk(board, fences, closed, seen, except) &&
    LevelDone(board, fences, src, closed, level)
  }

  /** Taking the head off the queue closes it, at its exact distance `level`. */
  lemma Dequeue(board: Board, fences: seq<Fence>, src: Position, q: seq<QueueNode>,
                seen: set<Position>, closed: set<Position>, level: nat)
    requires SearchInv(board, fences, src, q, seen, closed, level, {})
    requires |q| > 0 && q[0].distance == level
    ensures SearchInv(board, fences, src, q[1..], seen, closed + {q[0].position}, level, {q[0].position})
    ensures Within(board, fences, src, q[0].position, level)
    ensures forall k: nat :: Within(board, fences, src, q[0].position, k) ==> level <= k
  {
    QueueOkTail(board, fences, src, q, level);
  }

  /** Queuing a newly discovered neighbour of the cell being expanded. */
  lemma Enqueue(board: Board, fences: seq<Fence>, src: Position, q: seq<QueueNode>,
                seen: set<Position>, closed: set<Position>, level: nat, pos: Position, p: Position)
    requires SearchInv(board, fences, src, q, seen, closed, level, {pos})
    requires pos in closed && Within(board, fences, src, pos, level)
    requires forall k: nat :: Within(board, fences, src, pos, k) ==> level <= k
    requires InBoard(board, p) && p !in seen && CanMove(pos, p, fences)
    ensures SearchInv(board, fences, src, q + [QueueNode(p, level + 1)], seen + {p}, closed, level, {pos})
  {
    Discovered(board, fences, src, seen, closed, pos, level, p);
    QueueOkAppend(board, fences, src, q, level, p);
    assert p in Cells(board);
  }

  /** Once every unblocked in-board neighbour of `pos` is seen, `pos` is no exception. */
  lemma CloseNeighbours(board: Board, fences: seq<Fence>, src: Position, q: seq<QueueNode>,
                        seen: set<Position>, closed: set<Position>, level: nat, pos: Position)
    requires SearchInv(board, fences, src, q, seen, closed, level, {pos})
    requires var ps := NewPositionSquare(pos);
      forall x :: x in [ps.east, ps.north, ps.south, ps.west] && InBoard(board, x) && CanMove(pos, x, fences) ==> x in seen
    ensures SearchInv(board, fences, src, q, seen, closed, level, {})
  {
    var ps := NewPositionSquare(pos);
    forall c, x | c in closed && InBoard(board, x) && CanMove(c, x, fences)
      ensures x in seen
    {
      if c == pos {
        PositionSquareIsAdjacency(pos, x);
        assert x in [ps.east, ps.north, ps.south, ps.west];
      } else {
        assert c !in {pos};
      }
    }
  }

  /** When the head of the queue is at `level + 1`, the search moves on a level. */
  lemma NextLevel(board: Board, fences: seq<Fence>, src: Position, q: seq<QueueNode>,
                  seen: set<Position>, closed: set<Position>, level: nat)
    requires SearchInv(board, fences, src, q, seen, closed, level, {})
    requires |q| > 0 && q[0].distance == level + 1
    ensures SearchInv(board, fences, src, q, seen, closed, level + 1, {})
  {
    QueueOkRebase(board, fences, src, q, level);
    AdvanceLevel(board, fences, src, q, seen, closed, level);
  }

  /** After an expansion the head of the queue is at `level` or `level + 1`;
      the level of the search follows it. */
  lemma Settle(board: Board, fences: seq<Fence>, src: Position, q: seq<QueueNode>,
               seen: set<Position>, closed: set<Position>, level: nat) returns (level': nat)
    requires SearchInv(board, fences, src, q, seen, closed, level, {})
    ensures SearchInv(board, fences, src, q, seen, closed, level', {})
    ensures |q| > 0 ==> q[0].distance == level'
  {
    level' := level;
    if |q| > 0 && q[0].distance == level + 1 {
      NextLevel(board, fences, src, q, seen, closed, level);
      level' := level + 1;
    }
  }

  /** Each round of the search either sees a new cell or shortens the queue. */
  lemma Progress(board: Board, seen0: set<Position>, seen: set<Position>, len0: nat, len: nat)
    requires seen0 <= seen <= Cells(board)
    requires seen == seen0 ==> len < len0
    ensures Cells(board) - seen < Cells(board) - seen0 || (Cells(board) - seen == Cells(board) - seen0 && len < len0)
  {
    if seen != seen0 {
      var x :| x in seen && x !in seen0;
      assert x in Cells(board) - seen0 && x !in Cells(board) - seen;
    }
  }

  /** Marking a cell of the board visited adds it to the seen cells. */
  method Visit(board: Board, visited: array2<bool>, ghost seen: set<Position>, p: Position)
    modifies visited
    requires Marks(visited, board, seen) && InBoard(board, p)
    ensures Marks(visited, board, seen + {p})
  {
    visited[p.column, p.row] := true;
  }

  /** The queue `q'` is `q` followed, in order, by nodes at distance `distance`
      for cells in `seen'` that were not in `seen`: the queue is first in,
      first out. */
  ghost predicate Appended(q: seq<QueueNode>, q': seq<QueueNode>, seen: set<Position>, seen': set<Position>, distance: int)
  {
    |q| <= |q'| && q'[..|q|] == q &&
    forall k :: |q| <= k < |q'| ==> q'[k].distance == distance && q'[k].position in seen' && q'[k].position !in seen
  }

  /** Queueing a newly seen cell at the back keeps the queue an extension of `q`. */
  lemma AppendedStep(q: seq<QueueNode>, q': seq<QueueNode>, seen: set<Position>, seen': set<Position>,
                     distance: int, p: Position)
    requires Appended(q, q', seen, seen', distance) && p !in seen
    ensures Appended(q, q' + [QueueNode(p, distance)], seen, seen' + {p}, distance)
  {
    var q'' := q' + [QueueNode(p, distance)];
    assert q''[..|q|] == q'[..|q|];
  }

  /** One expansion step of the search: every in-board neighbour of `pos` that
      no fence separates from it and that has not been seen is marked visited
      and queued at distance `level + 1`. */
  method ExpandNeighbours(board: Board, fences: seq<Fence>, src: Position, visited: array2<bool>,
                          q: seq<QueueNode>, pos: Position, level: nat,
                          ghost seen: set<Position>, ghost closed: set<Position>)
    returns (q': seq<QueueNode>, ghost seen': set<Position>)
    modifies visited
    requires Marks(visited, board, seen)
    requires SearchInv(board, fences, src, q, seen, closed, level, {pos})
    requires pos in closed && Within(board, fences, src, pos, level)
    requires forall k: nat :: Within(board, fences, src, pos, k) ==> level <= k
    ensures Marks(visited, board, seen')
    ensures SearchInv(board, fences, src, q', seen', closed, level, {})
    ensures seen <= seen'
    ensures seen' == seen ==> q' == q
    ensures Appended(q, q', seen, seen', level + 1)
  {
    q' := q;
    seen' := seen;
    var ps := NewPositionSquare(pos);
    var positions := [ps.east, ps.north, ps.south, ps.west];
    for j := 0 to 4
      invariant Marks(visited, board, seen')
      invariant SearchInv(board, fences, src, q', seen', closed, level, {pos})
      invariant seen <= seen'
      invariant seen' == seen ==> q' == q
      invariant Appended(q, q', seen, seen', level + 1)
      invariant forall x :: x in positions[..j] && InBoard(board, x) && CanMove(pos, x, fences) ==> x in seen'
    {
      var position := positions[j];
      if InBoard(board, position) && !visited[position.column, position.row] && CanMove(pos, position, fences) {
        Visit(board, visited, seen', position);
        Enqueue(board, fences, src, q', seen', closed, level, pos, position);
        AppendedStep(q, q', seen, seen', level + 1, position);
        seen' := seen' + {position};
        q' := q' + [QueueNode(position, level + 1)];
      }
      assert positions[..j + 1] == positions[..j] + [position];
    }
    assert positions[..4] == positions;
    CloseNeighbours(board, fences, src, q', seen', closed, level, pos);
  }

  /** Path: the BFS distance from `src` to the nearest cell of `dest`, or -1.
      The source must be on the board, since it indexes the visited grid. */
  method Path(board: Board, fences: seq<Fence>, src: Position, dest: seq<Position>) returns (d: int)
    requires InBoard(board, src)
    ensures d == -1 <==> !Reachable(board, fences, src, dest)
    ensures d != -1 ==> d >= 0 && ReachedWithin(board, fences, src, dest, d)
    ensures d != -1 ==> forall k: nat :: k < d ==> !ReachedWithin(board, fences, src, dest, k)
  {
    var boardSize := board.boardSize;
    var visited := new bool[boardSize, boardSize]((c, r) => false);
    visited[src.column, src.row] := true;
    var q := [QueueNode(src, 0)];
    ghost var seen := {src};
    ghost var closed: set<Position> := {};
    ghost var level: nat := 0;
    StartInv(board, fences, src);

    while |q| > 0
      invariant Marks(visited, board, seen)
      invariant SearchInv(board, fences, src, q, seen, closed, level, {})
      invariant |q| > 0 ==> q[0].distance == level
      invariant forall c :: c in closed ==> c !in dest
      decreases Cells(board) - seen, |q|
    {
      var curr := q[0];
      var pos := curr.position;
      if Lists.IndexOf(dest, pos) != -1 {
        Found(board, fences, src, q, seen, closed, level, dest);
        return curr.distance;
      }
      ghost var seen0 := seen;
      ghost var len0 := |q|;
      Dequeue(board, fences, src, q, seen, closed, level);
      q := q[1..];
      closed := closed + {pos};
      q, seen := ExpandNeighbours(board, fences, src, visited, q, pos, curr.distance, seen, closed);
      level := Settle(board, fences, src, q, seen, closed, level);
      Progress(board, seen0, seen, len0, |q|);
    }
    d := -1;
    Exhausted(board, fences, src, seen, closed, level, dest);
  }

  lemma StartInv(board: Board, fences: seq<Fence>, src: Position)
    requires InBoard(board, src)
    ensures SearchInv(board, fences, src, [QueueNode(src, 0)], {src}, {}, 0, {})
  {
    var q := [QueueNode(src, 0)];
    assert Queued(q) == {src} by {
      assert q[0].position == src;
    }
    assert src in Cells(board);
  }

  /** The head of the queue is a destination: its distance is the answer. */
  lemma Found(board: Board, fences: seq<Fence>, src: Position, q: seq<QueueNode>,
              seen: set<Position>, closed: set<Position>, level: nat, dest: seq<Position>)
    requires SearchInv(board, fences, src, q, seen, closed, level, {})
    requires |q| > 0 && q[0].distance == level && q[0].position in dest
    requires forall c :: c in closed ==> c !in dest
    ensures ReachedWithin(board, fences, src, dest, level)
    ensures forall k: nat :: k < level ==> !ReachedWithin(board, fences, src, dest, k)
  {
    assert Within(board, fences, src, q[0].position, level);
    forall x, k: nat | k < level && Within(board, fences, src, x, k)
      ensures x in closed
    {
    }
  }

  /** The queue ran dry before meeting a destination: none is reachable. */
  lemma Exhausted(board: Board, fences: seq<Fence>, src: Position,
                  seen: set<Position>, closed: set<Position>, level: nat, dest: seq<Position>)
    requires SearchInv(board, fences, src, [], seen, closed, level, {})
    requires forall c :: c in closed ==> c !in dest
    ensures !Reachable(board, fences, src, dest)
  {
    assert Queued([]) == {};
    forall x, k: nat | Within(board, fences, src, x, k)
      ensures x in closed
    {
      ClosedSetHoldsReachable(board, fences, src, closed, x, k);
    }
  }

  /** One more unblocked step onto the board extends a walk by one. */
  lemma Extend(board: Board, fences: seq<Fence>, src: Position, p: Position, x: Position, k: nat)
    requires Within(board, fences, src, p, k)
    requires InBoard(board, x) && CanMove(p, x, fences)
    ensures Within(board, fences, src, x, k + 1)
  {
    assert Within(board, fences, src, p, (k + 1) - 1);
  }

  /** A walk of unblocked steps over the board from the source to a
      destination reaches it within its length. */
  lemma WalkReaches(board: Board, fences: seq<Fence>, src: Position, dest: seq<Position>, walk: seq<Position>)
    requires |walk| > 0 && walk[0] == src && walk[|walk| - 1] in dest
    requires forall i :: 0 < i < |walk| ==> InBoard(board, walk[i]) && CanMove(walk[i - 1], walk[i], fences)
    ensures ReachedWithin(board, fences, src, dest, |walk| - 1)
    ensures Reachable(board, fences, src, dest)
  {
    for i := 0 to |walk| - 1
      invariant Within(board, fences, src, walk[i], i)
    {
      Extend(board, fences, src, walk[i], walk[i + 1], i);
    }
  }

  /** On an empty 3x3 board the east column is two steps from (0,1). */
  lemma PathWithoutFences(b: Board, fences: seq<Fence>, src: Position, dest: seq<Position>)
    requires b == Board(3) && fences == [] && src == Position(0, 1)
    requires dest == [Position(2, 0), Position(2, 1), Position(2, 2)]
    ensures ReachedWithin(b, fences, src, dest, 2)
    ensures Reachable(b, fences, src, dest)
  {
    WalkReaches(b, fences, src, dest, [src, Position(1, 1), Position(2, 1)]);
  }

  /** Vertical fences at (0,0) and (1,1) leave a detour to the east column:
      south, east, then north twice and east. */
  lemma PathWithVerticalFences(b: Board, fences: seq<Fence>, src: Position, dest: seq<Position>)
    requires b == Board(3) && fences == [Fence(Position(0, 0), false), Fence(Position(1, 1), false)]
    requires src == Position(0, 1)
    requires dest == [Position(2, 0), Position(2, 1), Position(2, 2)]
    ensures ReachedWithin(b, fences, src, dest, 5)
    ensures Reachable(b, fences, src, dest)
  {
    var walk := [src, Position(0, 2), Position(1, 2), Position(1, 1), Position(1, 0), Position(2, 0)];
    forall i | 0 < i < |walk|
      ensures InBoard(b, walk[i]) && CanMove(walk[i - 1], walk[i], fences)
    {
      StepBlockedByTwo(fences[0], fences[1], walk[i - 1], walk[i]);
    }
    WalkReaches(b, fences, src, dest, walk);
  }

  /** Fences V(0,0) and H(0,1) shut (0,1) in with (0,0): the east column is out of reach. */
  lemma NoPathWithFences(b: Board, fences: seq<Fence>, src: Position, dest: seq<Position>)
    requires b == Board(3) && fences == [Fence(Position(0, 0), false), Fence(Position(0, 1), true)]
    requires src == Position(0, 1)
    requires dest == [Position(2, 0), Position(2, 1), Position(2, 2)]
    ensures !Reachable(b, fences, src, dest)
  {
    var s := {Position(0, 0), Position(0, 1)};
    forall c, x | c in s && InBoard(b, x) && CanMove(c, x, fences)
      ensures x in s
    {
      StepBlockedByTwo(fences[0], fences[1], c, x);
    }
    forall x, k: nat | Within(b, fences, src, x, k)
      ensures x in s
    {
      ClosedSetHoldsReachable(b, fences, src, s, x, k);
    }
  }
}
