/** The fence-slot enumeration of the game controller (gamecontroller.go):
    every slot of the board, then the ones a move could still use. */
module GameController {
  import opened Positions
  import opened Fences
  import opened Games
  import Lists

  /** The number of fence anchors per row or column: one less than the board
      size, and none for a board of size 1 or less. */
  function Intersections(boardSize: int): (m: nat)
  {
    if boardSize - 1 < 0 then 0 else boardSize - 1
  }

  /** The slots of the first `c` anchors of row `row`, each horizontal then
      vertical. */
  function RowSlots(row: int, c: nat): (r: seq<Fence>)
  {
    if c == 0 then []
    else RowSlots(row, c - 1) + [Fence(Position(c - 1, row), true), Fence(Position(c - 1, row), false)]
  }

  /** The slots of the first `r` rows of anchors, `m` anchors per row. */
  function Slots(m: nat, r: nat): (s: seq<Fence>)
  {
    if r == 0 then [] else Slots(m, r - 1) + RowSlots(r - 1, m)
  }

  /** A row has two slots per anchor. */
  lemma {:induction false} RowSlotsLength(row: int, c: nat)
    ensures |RowSlots(row, c)| == 2 * c
  {
    if c > 0 {
      RowSlotsLength(row, c - 1);
    }
  }

  /** A row lists a slot exactly when it is anchored on the row in one of
      its first `c` columns. */
  lemma {:induction false} RowSlotsMember(row: int, c: nat, f: Fence)
    ensures f in RowSlots(row, c) <==> f.nwSquare.row == row && 0 <= f.nwSquare.column < c
  {
    if c > 0 {
      RowSlotsMember(row, c - 1, f);
      var prev := RowSlots(row, c - 1);
      var pair := [Fence(Position(c - 1, row), true), Fence(Position(c - 1, row), false)];
      assert f in prev + pair <==> f in prev || f in pair;
    }
  }

  /** A row lists exactly the slots anchored on it in its first `c` columns. */
  lemma RowSlotsMembers(row: int, c: nat)
    ensures forall f :: f in RowSlots(row, c) <==>
      f.nwSquare.row == row && 0 <= f.nwSquare.column < c
  {
    forall f {
      RowSlotsMember(row, c, f);
    }
  }

  /** A row lists its anchors in column order, horizontal then vertical. */
  lemma {:induction false} RowSlotsIndex(row: int, c: nat)
    ensures |RowSlots(row, c)| == 2 * c
    ensures forall j :: 0 <= j < c ==>
      RowSlots(row, c)[2 * j] == Fence(Position(j, row), true) &&
      RowSlots(row, c)[2 * j + 1] == Fence(Position(j, row), false)
  {
    if c > 0 {
      RowSlotsIndex(row, c - 1);
      var prev := RowSlots(row, c - 1);
      assert RowSlots(row, c) == prev + [Fence(Position(c - 1, row), true), Fence(Position(c - 1, row), false)];
      forall j | 0 <= j < c
        ensures RowSlots(row, c)[2 * j] == Fence(Position(j, row), true)
        ensures RowSlots(row, c)[2 * j + 1] == Fence(Position(j, row), false)
      {
        if j < c - 1 {
          assert RowSlots(row, c)[2 * j] == prev[2 * j];
          assert RowSlots(row, c)[2 * j + 1] == prev[2 * j + 1];
        }
      }
    }
  }

  /** A row lists no slot twice. */
  lemma {:induction false} RowSlotsNoDup(row: int, c: nat)
    ensures Lists.NoDup(RowSlots(row, c))
  {
    if c > 0 {
      RowSlotsNoDup(row, c - 1);
      RowSlotsMembers(row, c - 1);
      var prev := RowSlots(row, c - 1);
      var pair := [Fence(Position(c - 1, row), true), Fence(Position(c - 1, row), false)];
      Lists.NoDupConcat(prev, pair);
    }
  }

  /** A row lists its anchors in column order, horizontal then vertical, and
      nothing else. */
  lemma RowSlotsFacts(row: int, c: nat)
    ensures |RowSlots(row, c)| == 2 * c
    ensures forall f :: f in RowSlots(row, c) <==>
      f.nwSquare.row == row && 0 <= f.nwSquare.column < c
    ensures forall j :: 0 <= j < c ==>
      RowSlots(row, c)[2 * j] == Fence(Position(j, row), true) &&
      RowSlots(row, c)[2 * j + 1] == Fence(Position(j, row), false)
    ensures Lists.NoDup(RowSlots(row, c))
  {
    RowSlotsMembers(row, c);
    RowSlotsIndex(row, c);
    RowSlotsNoDup(row, c);
  }

  /** One more row adds 2m slots. */
  lemma RowStep(m: nat, r: nat)
    requires r > 0
    ensures 2 * m * r == 2 * m * (r - 1) + 2 * m
  {
  }

  /** The enumeration has two slots per anchor. */
  lemma {:induction false} SlotsCount(m: nat, r: nat)
    ensures |Slots(m, r)| == 2 * m * r
  {
    if r > 0 {
      SlotsCount(m, r - 1);
      RowSlotsLength(r - 1, m);
      RowStep(m, r);
    }
  }

  /** A slot anchored in the first `r` rows and the first `m` columns. */
  predicate Anchored(f: Fence, m: nat, r: nat)
  {
    0 <= f.nwSquare.column < m && 0 <= f.nwSquare.row < r
  }

  /** Appending row `r - 1` to the first `r - 1` rows adds exactly its slots. */
  lemma AddRowMember(prev: seq<Fence>, row: seq<Fence>, m: nat, r: nat, f: Fence)
    requires r > 0
    requires f in prev <==> Anchored(f, m, r - 1)
    requires f in row <==> f.nwSquare.row == r - 1 && 0 <= f.nwSquare.column < m
    ensures f in prev + row <==> Anchored(f, m, r)
  {
  }

  /** The enumeration lists a slot exactly when it is anchored in the first
      `r` rows and the first `m` columns. */
  lemma {:induction false} SlotsElement(m: nat, r: nat, f: Fence)
    ensures f in Slots(m, r) <==> Anchored(f, m, r)
  {
    if r > 0 {
      SlotsElement(m, r - 1, f);
      RowSlotsMember(r - 1, m, f);
      AddRowMember(Slots(m, r - 1), RowSlots(r - 1, m), m, r, f);
    }
  }

  /** The enumeration lists exactly the slots anchored in the first `r` rows
      and the first `m` columns. */
  lemma SlotsElements(m: nat, r: nat)
    ensures forall f :: f in Slots(m, r) <==>
      0 <= f.nwSquare.column < m && 0 <= f.nwSquare.row < r
  {
    forall f {
      SlotsElement(m, r, f);
    }
  }

  /** The enumeration lists no slot twice. */
  lemma {:induction false} SlotsNoDup(m: nat, r: nat)
    ensures Lists.NoDup(Slots(m, r))
  {
    if r > 0 {
      SlotsNoDup(m, r - 1);
      SlotsElements(m, r - 1);
      RowSlotsMembers(r - 1, m);
      RowSlotsNoDup(r - 1, m);
      Lists.NoDupConcat(Slots(m, r - 1), RowSlots(r - 1, m));
    }
  }

  /** The enumeration lists exactly the slots anchored in the first `r` rows
      and the first `m` columns, each once. */
  lemma SlotsMembers(m: nat, r: nat)
    ensures forall f :: f in Slots(m, r) <==>
      0 <= f.nwSquare.column < m && 0 <= f.nwSquare.row < r
    ensures Lists.NoDup(Slots(m, r))
  {
    SlotsElements(m, r);
    SlotsNoDup(m, r);
  }

  /** Later rows only extend the enumeration. */
  lemma {:induction false} SlotsPrefix(m: nat, row: nat, r: nat)
    requires row <= r
    ensures |Slots(m, row)| <= |Slots(m, r)|
    ensures Slots(m, r)[..|Slots(m, row)|] == Slots(m, row)
    decreases r
  {
    if row < r {
      SlotsPrefix(m, row, r - 1);
    }
  }

  /** Row-major order: the anchor (column, row) owns the two indices after the
      2m slots of each earlier row and the two of each earlier column. */
  lemma SlotsIndex(m: nat, r: nat, row: nat, column: nat)
    requires row < r && column < m
    ensures 2 * m * row + 2 * column + 1 < |Slots(m, r)|
    ensures Slots(m, r)[2 * m * row + 2 * column] == Fence(Position(column, row), true)
    ensures Slots(m, r)[2 * m * row + 2 * column + 1] == Fence(Position(column, row), false)
  {
    SlotsPrefix(m, row + 1, r);
    SlotsCount(m, row);
    RowSlotsIndex(row, m);
    var k := |Slots(m, row)|;
    var line := RowSlots(row, m);
    var upTo := Slots(m, row + 1);
    assert upTo == Slots(m, row) + line;
    var h, v := line[2 * column], line[2 * column + 1];
    assert h == Fence(Position(column, row), true) && v == Fence(Position(column, row), false);
    assert upTo[k + 2 * column] == h && upTo[k + 2 * column + 1] == v;
    assert Slots(m, r)[..|upTo|] == upTo;
    assert k == 2 * m * row;
  }

  /** addAllPossibilities: nested loops over rows then columns, appending the
      horizontal and then the vertical slot of each anchor. */
  method AddAllPossibilities(boardSize: int) returns (actions: seq<Fence>)
    ensures actions == Slots(Intersections(boardSize), Intersections(boardSize))
  {
    var numberOfIntersections := boardSize - 1;
    ghost var m := Intersections(boardSize);
    actions := [];
    var row := 0;
    while row < numberOfIntersections
      invariant 0 <= row && (numberOfIntersections >= 0 ==> row <= numberOfIntersections)
      invariant numberOfIntersections < 0 ==> row == 0
      invariant actions == Slots(m, row)
    {
      var column := 0;
      while column < numberOfIntersections
        invariant 0 <= column <= numberOfIntersections
        invariant actions == Slots(m, row) + RowSlots(row, column)
      {
        actions := actions + [Fence(Position(column, row), true)];
        actions := actions + [Fence(Position(column, row), false)];
        column := column + 1;
      }
      row := row + 1;
    }
  }

  /** The enumeration for a board: `2(n-1)^2` slots, exactly those anchored in
      [0, n-2] x [0, n-2], none twice. */
  lemma AllPossibilitiesFacts(boardSize: int)
    ensures var m := Intersections(boardSize);
      |Slots(m, m)| == 2 * m * m && Lists.NoDup(Slots(m, m)) &&
      forall f :: f in Slots(m, m) <==> 0 <= f.nwSquare.column < m && 0 <= f.nwSquare.row < m
  {
    var m := Intersections(boardSize);
    SlotsCount(m, m);
    SlotsMembers(m, m);
  }

  /** The slots a placed fence rules out, in the order removeFences drops
      them: the fence itself, its two same-orientation neighbours (west and
      east, or north and south), then the crossing slot at its anchor. */
  function Targets(e: Fence): (r: seq<Fence>)
  {
    var ps := NewPositionSquare(e.nwSquare);
    if e.horizontal then [e, Fence(ps.west, true), Fence(ps.east, true), Fence(e.nwSquare, false)]
    else [e, Fence(ps.north, false), Fence(ps.south, false), Fence(e.nwSquare, true)]
  }

  /** The slots removeFences drops are exactly those AddFence would refuse as
      overlapping the placed fence. */
  lemma TargetsAreOverlaps(e: Fence, f: Fence)
    ensures f in Targets(e) <==> Overlaps(e, f)
  {
    PositionSquareSymmetric(e.nwSquare, f.nwSquare);
  }

  /** The slots dropped when `e` is examined: its targets when it is placed,
      itself when it is not placed but would cut a pawn off, else none. */
  function Removed(e: Fence, placed: seq<Fence>, blocked: iset<Fence>): (r: seq<Fence>)
  {
    if e in placed then Targets(e) else if e in blocked then [e] else []
  }

  /** The fences whose addition would cut some pawn off its goal column. */
  ghost function Blocked(g: Game): (b: iset<Fence>)
    reads g.pawns
  {
    iset f | !Crossable(g, f)
  }

  /** A run of Fences.RemoveF calls on the slice backing[..len], in place. */
  function RemoveEachAt(backing: seq<Fence>, len: nat, ts: seq<Fence>): (r: (seq<Fence>, nat))
    requires len <= |backing|
    ensures |r.0| == |backing| && r.1 <= len
    ensures r.0[..r.1] == Lists.RemoveEach(backing[..len], ts)
    decreases |ts|
  {
    if ts == [] then (backing, len)
    else
      var s := RemoveFenceAt(backing, len, ts[0]);
      assert s.0[..s.1][..s.1] == s.0[..s.1];
      RemoveEachAt(s.0, s.1, ts[1..])
  }

  /** The array and slice length after the first `i` iterations of
      removeFences as written: iteration `i` examines whatever the shared
      array holds at index `i` by then. */
  ghost function Steps(input: seq<Fence>, i: nat, placed: seq<Fence>, blocked: iset<Fence>): (r: (seq<Fence>, nat))
    requires i <= |input|
    ensures |r.0| == |input| && r.1 <= |input|
  {
    if i == 0 then (input, |input|)
    else
      var prev := Steps(input, i - 1, placed, blocked);
      RemoveEachAt(prev.0, prev.1, Removed(prev.0[i - 1], placed, blocked))
  }

  /** The Fences.RemoveF calls of one iteration, in order, on a[..len]. */
  method RemoveEachFence(a: array<Fence>, len: nat, ts: seq<Fence>) returns (newLen: nat)
    requires len <= a.Length
    modifies a
    ensures (a[..], newLen) == RemoveEachAt(old(a[..]), len, ts)
  {
    newLen := len;
    for j := 0 to |ts|
      invariant newLen <= a.Length
      invariant RemoveEachAt(a[..], newLen, ts[j..]) == RemoveEachAt(old(a[..]), len, ts)
    {
      assert ts[j..][1..] == ts[j + 1..];
      newLen := RemoveFence(a, newLen, ts[j]);
    }
  }

  /** The body of one removeFences iteration: the RemoveF arguments, in
      order, for the element examined. A placed fence (found by
      Fences.IndexOf) drops its targets; otherwise IsCrossable decides whether
      the element itself goes. */
  method SlotsToDrop(g: Game, element: Fence) returns (drop: seq<Fence>)
    requires PawnsInBoard(g)
    ensures drop == Removed(element, g.fences, Blocked(g))
  {
    drop := [];
    var placedAt := Fences.IndexOf(g.fences, element);
    if placedAt > -1 {
      var positionSquare := NewPositionSquare(element.nwSquare);
      if element.horizontal {
        drop := [element, Fence(positionSquare.west, true), Fence(positionSquare.east, true),
                 Fence(element.nwSquare, false)];
      } else {
        drop := [element, Fence(positionSquare.north, false), Fence(positionSquare.south, false),
                 Fence(element.nwSquare, true)];
      }
    } else {
      var crossable := IsCrossable(g, element);
      if !crossable {
        drop := [element];
      }
    }
  }

  /** removeFences as written: `possibilities` is built over the backing array
      of `allPossibilities` and the range loop reads that array, so every
      removal shifts the elements still to be examined. The array is `a`, and
      the result is a[..len]. */
  method RemoveFences(a: array<Fence>, g: Game) returns (len: nat)
    requires PawnsInBoard(g)
    modifies a
    ensures len <= a.Length
    ensures (a[..], len) == Steps(old(a[..]), a.Length, g.fences, Blocked(g))
  {
    len := a.Length;
    ghost var input, blocked := a[..], Blocked(g);
    for i := 0 to a.Length
      invariant len <= a.Length
      invariant (a[..], len) == Steps(input, i, g.fences, blocked)
    {
      var element := a[i];
      var drop := SlotsToDrop(g, element);
      StepsNext(input, i, g.fences, blocked);
      len := RemoveEachFence(a, len, drop);
    }
  }

  /** One more iteration examines the element now at index `i`. */
  lemma StepsNext(input: seq<Fence>, i: nat, placed: seq<Fence>, blocked: iset<Fence>)
    requires i < |input|
    ensures var prev := Steps(input, i, placed, blocked);
      Steps(input, i + 1, placed, blocked) == RemoveEachAt(prev.0, prev.1, Removed(prev.0[i], placed, blocked))
  {
  }

  /** The live slice of an in-place state is a subsequence of `input`. */
  ghost predicate SliceOf(st: (seq<Fence>, nat), input: seq<Fence>)
  {
    st.1 <= |st.0| && Lists.Subseq(st.0[..st.1], input)
  }

  /** A run of RemoveF calls keeps the slice a subsequence of `input`. */
  lemma RemoveEachAtKeepsSubseq(st: (seq<Fence>, nat), ts: seq<Fence>, input: seq<Fence>)
    requires SliceOf(st, input)
    ensures SliceOf(RemoveEachAt(st.0, st.1, ts), input)
  {
    Lists.RemoveEachKeepsSubseq(st.0[..st.1], ts, input);
  }

  /** removeFences as written only deletes: its result is an order-preserving
      subsequence of its input. */
  lemma {:induction false} StepsSubseq(input: seq<Fence>, i: nat, placed: seq<Fence>, blocked: iset<Fence>)
    requires i <= |input|
    ensures SliceOf(Steps(input, i, placed, blocked), input)
  {
    if i == 0 {
      assert input[..|input|] == input;
      Lists.SubseqRefl(input);
    } else {
      StepsSubseq(input, i - 1, placed, blocked);
      StepsNext(input, i - 1, placed, blocked);
      var prev := Steps(input, i - 1, placed, blocked);
      RemoveEachAtKeepsSubseq(prev, Removed(prev.0[i - 1], placed, blocked), input);
    }
  }

  /** Each iteration of removeFences as written, on an enumeration without
      repeats: it drops the examined element's targets when that element is
      placed, the element itself when it is not placed but would cut a pawn
      off, and nothing else. */
  lemma StepsExamine(input: seq<Fence>, i: nat, placed: seq<Fence>, blocked: iset<Fence>)
    requires i < |input| && Lists.NoDup(input)
    ensures var prev := Steps(input, i, placed, blocked);
      var next := Steps(input, i + 1, placed, blocked);
      forall f :: f in next.0[..next.1] <==>
        f in prev.0[..prev.1] && f !in Removed(prev.0[i], placed, blocked)
  {
    var prev := Steps(input, i, placed, blocked);
    StepsSubseq(input, i, placed, blocked);
    Lists.SubseqNoDup(prev.0[..prev.1], input);
    Lists.RemoveEachFacts(prev.0[..prev.1], Removed(prev.0[i], placed, blocked));
  }

  /** removeFences over an unshared copy: every input slot is examined once. */
  ghost function Filtered(all: seq<Fence>, i: nat, placed: seq<Fence>, blocked: iset<Fence>): (r: seq<Fence>)
    requires i <= |all|
  {
    if i == 0 then all
    else Lists.RemoveEach(Filtered(all, i - 1, placed, blocked), Removed(all[i - 1], placed, blocked))
  }

  /** removeFences with the range loop reading an unshared copy of the
      enumeration, so that the removals cannot shift it. */
  method RemoveFencesCorrected(all: seq<Fence>, g: Game) returns (possibilities: seq<Fence>)
    requires PawnsInBoard(g)
    ensures possibilities == Filtered(all, |all|, g.fences, Blocked(g))
  {
    possibilities := all;
    ghost var blocked := Blocked(g);
    for i := 0 to |all|
      invariant possibilities == Filtered(all, i, g.fences, blocked)
    {
      var drop := SlotsToDrop(g, all[i]);
      possibilities := Lists.RemoveEach(possibilities, drop);
    }
  }

  /** `s` is obtained from the enumeration `all` by deletions. */
  ghost predicate DeletedFrom(s: seq<Fence>, all: seq<Fence>)
  {
    Lists.Subseq(s, all)
  }

  /** The corrected filter only deletes. */
  lemma {:induction false} FilteredSubseq(all: seq<Fence>, i: nat, placed: seq<Fence>, blocked: iset<Fence>)
    requires i <= |all|
    ensures DeletedFrom(Filtered(all, i, placed, blocked), all)
  {
    if i == 0 {
      Lists.SubseqRefl(all);
    } else {
      FilteredSubseq(all, i - 1, placed, blocked);
      Lists.RemoveEachKeepsSubseq(Filtered(all, i - 1, placed, blocked), Removed(all[i - 1], placed, blocked), all);
    }
  }

  /** No element among the first `i` examined drops `f`. */
  ghost predicate Kept(f: Fence, all: seq<Fence>, i: nat, placed: seq<Fence>, blocked: iset<Fence>)
    requires i <= |all|
  {
    forall j :: 0 <= j < i ==> f !in Removed(all[j], placed, blocked)
  }

  /** On an enumeration without repeats, the corrected filter repeats nothing. */
  lemma FilteredNoDup(all: seq<Fence>, i: nat, placed: seq<Fence>, blocked: iset<Fence>)
    requires i <= |all| && Lists.NoDup(all)
    ensures Lists.NoDup(Filtered(all, i, placed, blocked))
  {
    FilteredSubseq(all, i, placed, blocked);
    Lists.SubseqNoDup(Filtered(all, i, placed, blocked), all);
  }

  /** Examining one more element keeps `f` when it was kept so far and that
      element does not drop it. */
  lemma KeptStep(f: Fence, all: seq<Fence>, i: nat, placed: seq<Fence>, blocked: iset<Fence>)
    requires 0 < i <= |all|
    ensures Kept(f, all, i, placed, blocked) <==>
      Kept(f, all, i - 1, placed, blocked) && f !in Removed(all[i - 1], placed, blocked)
  {
  }

  /** On an enumeration without repeats, the corrected filter keeps `f`
      exactly when no examined element dropped it. */
  lemma {:induction false} FilteredMember(all: seq<Fence>, i: nat, placed: seq<Fence>, blocked: iset<Fence>, f: Fence)
    requires i <= |all| && Lists.NoDup(all)
    ensures f in Filtered(all, i, placed, blocked) <==> f in all && Kept(f, all, i, placed, blocked)
  {
    if i > 0 {
      FilteredMember(all, i - 1, placed, blocked, f);
      FilteredNoDup(all, i - 1, placed, blocked);
      Lists.RemoveEachMember(Filtered(all, i - 1, placed, blocked), Removed(all[i - 1], placed, blocked), f);
      KeptStep(f, all, i, placed, blocked);
    }
  }

  /** On an enumeration without repeats, the corrected filter keeps a slot
      exactly when no examined element dropped it. */
  lemma FilteredMembers(all: seq<Fence>, i: nat, placed: seq<Fence>, blocked: iset<Fence>)
    requires i <= |all| && Lists.NoDup(all)
    ensures forall f :: f in Filtered(all, i, placed, blocked) <==> f in all && Kept(f, all, i, placed, blocked)
  {
    forall f {
      FilteredMember(all, i, placed, blocked, f);
    }
  }

  /** What the corrected removeFences promises: a slot of the enumeration is
      offered exactly when it would not cut a pawn off and overlaps no placed
      fence of the enumeration; in particular no placed fence is offered. */
  lemma CorrectedOffers(all: seq<Fence>, placed: seq<Fence>, blocked: iset<Fence>, f: Fence)
    requires Lists.NoDup(all)
    ensures f in Filtered(all, |all|, placed, blocked) <==>
      f in all && f !in blocked &&
      forall j :: 0 <= j < |all| && all[j] in placed ==> !Overlaps(all[j], f)
    ensures f in Filtered(all, |all|, placed, blocked) ==> f !in placed
  {
    FilteredMembers(all, |all|, placed, blocked);
    assert f in Filtered(all, |all|, placed, blocked) <==> f in all && Kept(f, all, |all|, placed, blocked);
    forall j | 0 <= j < |all|
      ensures f in Removed(all[j], placed, blocked) <==>
        (all[j] in placed && Overlaps(all[j], f)) || (all[j] !in placed && all[j] in blocked && f == all[j])
    {
      TargetsAreOverlaps(all[j], f);
    }
    if f in all {
      var k :| 0 <= k < |all| && all[k] == f;
      TargetsAreOverlaps(f, f);
    }
  }

  /** The state of removeFences as written keeps `x` at the head, with neither
      `x` nor any placed fence anywhere after it (stale slots included). */
  ghost predicate HeadFrozen(s: (seq<Fence>, nat), x: Fence, placed: seq<Fence>)
  {
    1 <= s.1 <= |s.0| && s.0[0] == x &&
    forall k :: 1 <= k < |s.0| ==> s.0[k] != x && s.0[k] !in placed
  }

  /** Removing a fence other than the head keeps a frozen head frozen. */
  lemma RemoveFenceKeepsHead(b: seq<Fence>, len: nat, e: Fence, x: Fence, placed: seq<Fence>)
    requires HeadFrozen((b, len), x, placed) && e != x
    ensures HeadFrozen(RemoveFenceAt(b, len, e), x, placed)
  {
    var index := Lists.IndexOf(b[..len], e);
    if index > -1 {
      assert index >= 1;
    }
  }

  /** Once the head is frozen after the first iteration, no later iteration
      of removeFences as written can touch it: every element examined after
      index 0 is neither placed nor the head. */
  lemma {:induction false} HeadStaysFrozen(input: seq<Fence>, i: nat, placed: seq<Fence>, blocked: iset<Fence>, x: Fence)
    requires 1 <= i <= |input|
    requires HeadFrozen(Steps(input, 1, placed, blocked), x, placed)
    ensures HeadFrozen(Steps(input, i, placed, blocked), x, placed)
  {
    if i > 1 {
      HeadStaysFrozen(input, i - 1, placed, blocked, x);
      var prev := Steps(input, i - 1, placed, blocked);
      var e := prev.0[i - 1];
      assert e != x && e !in placed;
      if e in blocked {
        assert Removed(e, placed, blocked) == [e];
        RemoveFenceKeepsHead(prev.0, prev.1, e, x, placed);
        var r := RemoveFenceAt(prev.0, prev.1, e);
        assert RemoveEachAt(prev.0, prev.1, [e]) == RemoveEachAt(r.0, r.1, []);
      } else {
        assert Removed(e, placed, blocked) == [];
      }
    }
  }

  /** RemoveFenceAt on a fence found at `index`. */
  lemma RemoveFenceFound(b: seq<Fence>, len: nat, e: Fence, index: nat)
    requires index < len <= |b| && b[index] == e && e !in b[..index]
    ensures RemoveFenceAt(b, len, e) == (RemoveAt(b, len, index), len - 1)
  {
    var view := b[..len];
    assert view[..index] == b[..index];
    Lists.IndexOfUnique(view, e, index);
  }

  /** The enumeration of the 3x3 board: the four slots of row 0 first, then
      four slots anchored on row 1. */
  lemma ThreeBoardLayout(input: seq<Fence>)
    requires input == Slots(2, 2)
    ensures |input| == 8
    ensures input[0] == Fence(Position(0, 0), true) && input[1] == Fence(Position(0, 0), false)
    ensures input[2] == Fence(Position(1, 0), true) && input[3] == Fence(Position(1, 0), false)
    ensures forall k :: 4 <= k < 8 ==> input[k].nwSquare.row == 1
  {
    SlotsCount(2, 2);
    SlotsIndex(2, 2, 0, 0);
    SlotsIndex(2, 2, 0, 1);
    SlotsCount(2, 1);
    RowSlotsFacts(1, 2);
    assert input == Slots(2, 1) + RowSlots(1, 2);
    forall k | 4 <= k < 8
      ensures input[k].nwSquare.row == 1
    {
      assert input[k] == RowSlots(1, 2)[k - 4];
    }
  }

  /** RemoveAt closes the gap and repeats the last live slot once. */
  lemma RemoveAtShift(b: seq<Fence>, len: nat, index: nat, k: nat)
    requires index < len <= |b| && k < |b|
    ensures RemoveAt(b, len, index)[k] == if index <= k < len - 1 then b[k + 1] else b[k]
  {
  }

  /** The three removals of the first iteration on the 3x3 enumeration that
      find their fence: the horizontal fence at (0,0) itself, its east
      neighbour, and the vertical slot at (0,0). The vertical fence at (1,0)
      ends at index 0, and all that follows it is anchored on row 1. */
  lemma FirstRemovals(b: seq<Fence>) returns (s3: seq<Fence>)
    requires |b| == 8
    requires b[0] == Fence(Position(0, 0), true) && b[1] == Fence(Position(0, 0), false)
    requires b[2] == Fence(Position(1, 0), true) && b[3] == Fence(Position(1, 0), false)
    requires forall k :: 4 <= k < 8 ==> b[k].nwSquare.row == 1
    ensures var s1 := RemoveFenceAt(b, 8, b[0]);
      var s2 := RemoveFenceAt(s1.0, s1.1, Fence(Position(-1, 0), true));
      var s3' := RemoveFenceAt(s2.0, s2.1, b[2]);
      RemoveFenceAt(s3'.0, s3'.1, b[1]) == (s3, 5)
    ensures |s3| == 8 && s3[0] == b[3]
    ensures forall k :: 1 <= k < 8 ==> s3[k].nwSquare.row == 1
  {
    RemoveFenceFound(b, 8, b[0], 0);
    var r1 := RemoveAt(b, 8, 0);
    forall k | 0 <= k < 8
      ensures r1[k] == if k < 7 then b[k + 1] else b[k]
    {
      RemoveAtShift(b, 8, 0, k);
    }
    var west := Fence(Position(-1, 0), true);
    assert west !in r1[..7];
    assert r1[..1] == [b[1]];
    RemoveFenceFound(r1, 7, b[2], 1);
    var r2 := RemoveAt(r1, 7, 1);
    forall k | 0 <= k < 8
      ensures r2[k] == if 1 <= k < 6 then r1[k + 1] else r1[k]
    {
      RemoveAtShift(r1, 7, 1, k);
    }
    RemoveFenceFound(r2, 6, b[1], 0);
    s3 := RemoveAt(r2, 6, 0);
    forall k | 0 <= k < 8
      ensures s3[k] == if k < 5 then r2[k + 1] else r2[k]
    {
      RemoveAtShift(r2, 6, 0, k);
    }
  }

  /** A run of removals is one removal followed by the rest. */
  lemma RemoveEachAtCons(b: seq<Fence>, len: nat, ts: seq<Fence>)
    requires len <= |b| && ts != []
    ensures var s := RemoveFenceAt(b, len, ts[0]);
      RemoveEachAt(b, len, ts) == RemoveEachAt(s.0, s.1, ts[1..])
  {
  }

  /** A run of four removals, one after the other. */
  lemma RemoveEachAtFour(b: seq<Fence>, len: nat, t0: Fence, t1: Fence, t2: Fence, t3: Fence)
    requires len <= |b|
    ensures var s1 := RemoveFenceAt(b, len, t0);
      var s2 := RemoveFenceAt(s1.0, s1.1, t1);
      var s3 := RemoveFenceAt(s2.0, s2.1, t2);
      RemoveEachAt(b, len, [t0, t1, t2, t3]) == RemoveFenceAt(s3.0, s3.1, t3)
  {
    var ts := [t0, t1, t2, t3];
    var s1 := RemoveFenceAt(b, len, t0);
    var s2 := RemoveFenceAt(s1.0, s1.1, t1);
    var s3 := RemoveFenceAt(s2.0, s2.1, t2);
    RemoveEachAtCons(b, len, ts);
    RemoveEachAtCons(s1.0, s1.1, ts[1..]);
    RemoveEachAtCons(s2.0, s2.1, ts[2..]);
    RemoveEachAtCons(s3.0, s3.1, ts[3..]);
    assert ts[1..][1..] == ts[2..] && ts[2..][1..] == ts[3..] && ts[3..][1..] == [];
  }

  /** The slots a placed horizontal fence at (0,0) drops. */
  lemma RemovedAtOrigin(h00: Fence, placed: seq<Fence>, blocked: iset<Fence>)
    requires h00 == Fence(Position(0, 0), true) && h00 in placed
    ensures Removed(h00, placed, blocked) ==
      [h00, Fence(Position(-1, 0), true), Fence(Position(1, 0), true), Fence(Position(0, 0), false)]
  {
  }

  /** The first iteration on the 3x3 enumeration with the horizontal fence at
      (0,0) placed: it drops that fence, its east neighbour and the vertical
      slot at (0,0), and the vertical fence at (1,0) moves to index 0, which
      the loop has already passed. */
  lemma FirstStepOnThreeBoard(input: seq<Fence>, placed: seq<Fence>, blocked: iset<Fence>)
    requires input == Slots(2, 2)
    requires placed == [Fence(Position(0, 0), true), Fence(Position(1, 0), false)]
    ensures HeadFrozen(Steps(input, 1, placed, blocked), Fence(Position(1, 0), false), placed)
  {
    ThreeBoardLayout(input);
    var s3 := FirstRemovals(input);
    assert placed[0] == input[0];
    RemovedAtOrigin(input[0], placed, blocked);
    StepsNext(input, 0, placed, blocked);
    RemoveEachAtFour(input, 8, input[0], Fence(Position(-1, 0), true), input[2], input[1]);
  }

  /** On the 3x3 board with the horizontal fence at (0,0) and the vertical
      fence at (1,0) placed, removeFences as written still offers the placed
      vertical fence, whatever IsCrossable answers for the other slots; the
      corrected version does not. */
  lemma PlacedFenceOfferedAsWritten(input: seq<Fence>, placed: seq<Fence>, blocked: iset<Fence>)
    requires input == Slots(2, 2)
    requires placed == [Fence(Position(0, 0), true), Fence(Position(1, 0), false)]
    ensures var r := Steps(input, |input|, placed, blocked);
      Fence(Position(1, 0), false) in r.0[..r.1]
    ensures Fence(Position(1, 0), false) !in Filtered(input, |input|, placed, blocked)
  {
    var v10 := Fence(Position(1, 0), false);
    FirstStepOnThreeBoard(input, placed, blocked);
    HeadStaysFrozen(input, |input|, placed, blocked, v10);
    var r := Steps(input, |input|, placed, blocked);
    assert r.0[..r.1][0] == v10;
    SlotsMembers(2, 2);
    CorrectedOffers(input, placed, blocked, v10);
  }
}

