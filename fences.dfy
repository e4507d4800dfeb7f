/** Fences (fence.go): a fence is named by the north-west cell of the 2x2 block
    it straddles plus its orientation; lists of fences are Go slices. */
module Fences {
  import opened Positions
  import Lists

  datatype Fence = Fence(nwSquare: Position, horizontal: bool)

  /** Fence.Equals: same anchor and same orientation. */
  predicate FenceEquals(f: Fence, other: Fence)
    ensures FenceEquals(f, other) <==> f == other
  {
    Equals(f.nwSquare, other.nwSquare) && f.horizontal == other.horizontal
  }

  /** The four orthogonal neighbours of a cell or anchor. */
  datatype PositionSquare = PositionSquare(north: Position, east: Position, south: Position, west: Position)

  function NewPositionSquare(center: Position): (ps: PositionSquare)
    ensures ps.north == Shift(center, North) && ps.east == Shift(center, East)
    ensures ps.south == Shift(center, South) && ps.west == Shift(center, West)
  {
    var northPosition := Copy(center, 0, -1);
    var eastPosition := Copy(center, 1, 0);
    var southPosition := Copy(center, 0, 1);
    var westPosition := Copy(center, -1, 0);
    PositionSquare(northPosition, eastPosition, southPosition, westPosition)
  }

  /** The four neighbours are exactly the cells that share a side with the centre. */
  lemma PositionSquareIsAdjacency(center: Position, p: Position)
    ensures var ps := NewPositionSquare(center);
      Adjacent(center, p) <==> p == ps.north || p == ps.east || p == ps.south || p == ps.west
  {
  }

  /** Neighbourhood is symmetric: `q` is east of `p` exactly when `p` is west of `q`,
      and `q` is south of `p` exactly when `p` is north of `q`. */
  lemma PositionSquareSymmetric(p: Position, q: Position)
    ensures NewPositionSquare(p).east == q <==> NewPositionSquare(q).west == p
    ensures NewPositionSquare(p).south == q <==> NewPositionSquare(q).north == p
  {
  }

  /** Reconstruction of the edge rule the movement and path tests agree on: a
      horizontal fence at (c,r) separates rows r and r+1 in columns c and c+1; a
      vertical fence at (c,r) separates columns c and c+1 in rows r and r+1. */
  predicate Blocks(f: Fence, from: Position, to: Position)
  {
    var c := f.nwSquare.column;
    var r := f.nwSquare.row;
    if f.horizontal then
      from.column == to.column && (from.column == c || from.column == c + 1) &&
      ((from.row == r && to.row == r + 1) || (from.row == r + 1 && to.row == r))
    else
      from.row == to.row && (from.row == r || from.row == r + 1) &&
      ((from.column == c && to.column == c + 1) || (from.column == c + 1 && to.column == c))
  }

  /** Some fence of the list separates the two cells. */
  predicate StepBlocked(fences: seq<Fence>, from: Position, to: Position)
  {
    exists i :: 0 <= i < |fences| && Blocks(fences[i], from, to)
  }

  /** With two fences, a step is blocked exactly when one of them blocks it. */
  lemma StepBlockedByTwo(f0: Fence, f1: Fence, from: Position, to: Position)
    ensures StepBlocked([f0, f1], from, to) <==> Blocks(f0, from, to) || Blocks(f1, from, to)
  {
    assert [f0, f1][0] == f0 && [f0, f1][1] == f1;
  }

  /** Fences block edges, not directions: a blocked step is blocked both ways,
      and only steps between adjacent cells are ever blocked. */
  lemma StepBlockedSymmetric(fences: seq<Fence>, from: Position, to: Position)
    ensures StepBlocked(fences, from, to) <==> StepBlocked(fences, to, from)
    ensures StepBlocked(fences, from, to) ==> Adjacent(from, to)
  {
    if StepBlocked(fences, from, to) {
      var i :| 0 <= i < |fences| && Blocks(fences[i], from, to);
      assert Blocks(fences[i], to, from);
    }
    if StepBlocked(fences, to, from) {
      var i :| 0 <= i < |fences| && Blocks(fences[i], to, from);
      assert Blocks(fences[i], from, to);
    }
  }

  /** Fences.IndexOf: a read-only scan for the first equal fence. */
  method IndexOf(fences: seq<Fence>, e: Fence) returns (index: int)
    ensures -1 <= index < |fences|
    ensures index == -1 <==> e !in fences
    ensures 0 <= index ==> fences[index] == e && forall j :: 0 <= j < index ==> fences[j] != e
    ensures index == Lists.IndexOf(fences, e)
  {
    for i := 0 to |fences|
      invariant forall j :: 0 <= j < i ==> fences[j] != e
    {
      if FenceEquals(fences[i], e) {
        assert e !in fences[..i];
        return i;
      }
    }
    return -1;
  }

  /** Fences.Contains: at least one of the two fences is in the list. */
  method Contains(fences: seq<Fence>, fence1: Fence, fence2: Fence) returns (r: bool)
    ensures r <==> fence1 in fences || fence2 in fences
  {
    var i1 := IndexOf(fences, fence1);
    var i2 := IndexOf(fences, fence2);
    r := i1 != -1 || i2 != -1;
  }

  /** The backing array after `append(s[:index], s[index+1:]...)` on a slice of
      length `len`: later elements move down one place and the old last slot
      keeps its value. */
  function RemoveAt<T>(backing: seq<T>, len: nat, index: nat): (r: seq<T>)
    requires index < len <= |backing|
    ensures |r| == |backing|
    ensures r[..len - 1] == backing[..index] + backing[index + 1..len]
    ensures r[len - 1..] == backing[len - 1..]
    ensures forall k :: 0 <= k < |r| ==> r[k] == if index <= k < len - 1 then backing[k + 1] else backing[k]
  {
    var r := seq(|backing|, k requires 0 <= k < |backing| =>
      if index <= k < len - 1 then backing[k + 1] else backing[k]);
    assert r[..len - 1] == backing[..index] + backing[index + 1..len];
    r
  }

  /** The backing array and length after RemoveFence on the slice backing[..len]. */
  function RemoveFenceAt(backing: seq<Fence>, len: nat, e: Fence): (r: (seq<Fence>, nat))
    requires len <= |backing|
    ensures |r.0| == |backing| && r.1 <= len
    ensures r.0[..r.1] == Lists.RemoveFirst(backing[..len], e)
    ensures e !in backing[..len] ==> r == (backing, len)
    ensures e in backing[..len] ==> r.1 == len - 1 && r.0[len - 1..] == backing[len - 1..]
  {
    var view := backing[..len];
    var index := Lists.IndexOf(view, e);
    if index > -1 then
      assert view[..index] == backing[..index] && view[index + 1..] == backing[index + 1..len];
      (RemoveAt(backing, len, index), len - 1)
    else (backing, len)
  }

  /** Fences.Remove on the slice a[..len], shifting inside the array. */
  method Remove(a: array<Fence>, len: nat, index: nat) returns (newLen: nat)
    requires index < len <= a.Length
    modifies a
    ensures newLen == len - 1
    ensures a[..] == RemoveAt(old(a[..]), len, index)
  {
    var j := index;
    while j < len - 1
      invariant index <= j <= len - 1
      invariant forall k :: 0 <= k < index ==> a[k] == old(a[k])
      invariant forall k :: index <= k < j ==> a[k] == old(a[k + 1])
      invariant forall k :: j <= k < a.Length ==> a[k] == old(a[k])
    {
      a[j] := a[j + 1];
      j := j + 1;
    }
    newLen := len - 1;
    ghost var r := RemoveAt(old(a[..]), len, index);
    assert forall k :: 0 <= k < a.Length ==> a[k] == r[k];
  }

  /** Fences.RemoveFence on the slice a[..len]: drops the first equal fence, if any. */
  method RemoveFence(a: array<Fence>, len: nat, e: Fence) returns (newLen: nat)
    requires len <= a.Length
    modifies a
    ensures (a[..], newLen) == RemoveFenceAt(old(a[..]), len, e)
  {
    var index := IndexOf(a[..len], e);
    if index > -1 {
      newLen := Remove(a, len, index);
    } else {
      newLen := len;
    }
  }
}
