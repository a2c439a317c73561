/**
 * Puzzle states and the move generator of the 8-puzzle solver
 * (get_children in puzzle-8.py).
 *
 * A state is the 3x3 grid of labels flattened row by row: the cell in row r
 * and column c is at index r * Cols + c.  Label 0 is the blank.  A child is
 * produced by sliding the blank one cell Right, Left, Down or Up, which swaps
 * it with the tile in that cell.
 */
module Board {
  import opened Wrappers

  const Rows: nat := 3
  const Cols: nat := 3
  const Cells: nat := 9

  /** The label of the empty cell. */
  const Blank: int := 0

  /** One configuration of the puzzle, row-major. */
  type Grid = s: seq<int> | |s| == Cells witness [1, 2, 3, 8, 0, 4, 7, 6, 5]

  /** The direction in which the blank moves. */
  datatype Move = Right | Left | Down | Up

  /** Moves from a start state, in the order they are applied. */
  type Path = seq<Move>

  /** The key under which get_children stores the child for a move. */
  function Letter(m: Move): char {
    match m
    case Right => 'R'
    case Left => 'L'
    case Down => 'D'
    case Up => 'U'
  }

  function DRow(m: Move): int {
    match m
    case Down => 1
    case Up => -1
    case _ => 0
  }

  function DCol(m: Move): int {
    match m
    case Right => 1
    case Left => -1
    case _ => 0
  }

  /** The order in which get_children tries the four directions. */
  const Directions: seq<Move> := [Right, Left, Down, Up]

  /** The position of a direction in Directions. */
  function Rank(m: Move): nat {
    match m
    case Right => 0
    case Left => 1
    case Down => 2
    case Up => 3
  }

  function Opposite(m: Move): Move {
    match m
    case Right => Left
    case Left => Right
    case Down => Up
    case Up => Down
  }

  /** The first cell, in row-major order, that holds the blank. */
  function FirstBlank(s: seq<int>): (z: nat)
    requires Blank in s
    ensures z < |s| && s[z] == Blank
    ensures forall k :: 0 <= k < z ==> s[k] != Blank
  {
    if s[0] == Blank then 0 else 1 + FirstBlank(s[1..])
  }

  /**
   * The cell the blank at index z reaches by moving in direction m, when that
   * cell lies inside the grid.
   */
  function Destination(z: nat, m: Move): Option<nat>
    requires z < Cells
  {
    var newRow := z / Cols + DRow(m);
    var newCol := z % Cols + DCol(m);
    if 0 <= newRow < Rows && 0 <= newCol < Cols then Some(newRow * Cols + newCol) else None
  }

  /** The grid p with the contents of cells i and j exchanged. */
  function Swap(p: Grid, i: nat, j: nat): (q: Grid)
    requires i < Cells && j < Cells
    ensures q[i] == p[j] && q[j] == p[i]
    ensures forall k :: 0 <= k < Cells && k != i && k != j ==> q[k] == p[k]
    ensures multiset(q) == multiset(p)
  {
    p[i := p[j]][j := p[i]]
  }

  /**
   * The state one slide of the blank in direction m produces from p, or None
   * when the blank would leave the grid.  The child is p with the blank and the
   * tile at the destination exchanged: a permutation of p with the blank at the
   * destination.
   */
  function Slide(p: Grid, m: Move): (r: Option<Grid>)
    requires Blank in p
  {
    var z := FirstBlank(p);
    match Destination(z, m)
    case None => None
    case Some(t) => Some(Swap(p, z, t))
  }

  /**
   * A legal slide exchanges the blank with the tile at the destination and
   * changes no other cell: the child is a permutation of p with the blank at
   * the destination.
   */
  lemma SlideSwaps(p: Grid, m: Move)
    requires Blank in p && Slide(p, m).Some?
    ensures Destination(FirstBlank(p), m).Some?
    ensures var z, t, c := FirstBlank(p), Destination(FirstBlank(p), m).value, Slide(p, m).value;
      && c[t] == Blank
      && c[z] == p[t]
      && (forall k :: 0 <= k < Cells && k != z && k != t ==> c[k] == p[k])
      && multiset(c) == multiset(p)
      && Blank in c
  {
  }

  /** The entry get_children adds for direction m: one child, or nothing. */
  function Offer(p: Grid, m: Move): seq<(Move, Grid)>
    requires Blank in p
  {
    match Slide(p, m)
    case None => []
    case Some(c) => [(m, c)]
  }

  /** The entries get_children has built after trying the directions ms in order. */
  function ChildrenFor(p: Grid, ms: seq<Move>): seq<(Move, Grid)>
    requires Blank in p
    decreases |ms|
  {
    if ms == [] then []
    else ChildrenFor(p, ms[..|ms| - 1]) + Offer(p, ms[|ms| - 1])
  }

  /** The dictionary get_children returns, as its items in insertion order. */
  function Children(p: Grid): seq<(Move, Grid)>
    requires Blank in p
  {
    ChildrenFor(p, Directions)
  }

  /** The value stored under key m in a list of dictionary items. */
  function Lookup(entries: seq<(Move, Grid)>, m: Move): Option<Grid>
    decreases |entries|
  {
    if entries == [] then None
    else if entries[0].0 == m then Some(entries[0].1)
    else Lookup(entries[1..], m)
  }

  /** The state one move of the blank in direction m leads to; None when there is no such move. */
  function Step(p: Grid, m: Move): Option<Grid> {
    if Blank in p then Slide(p, m) else None
  }

  /** The state reached by applying the moves of path in turn. */
  function Replay(p: Grid, path: Path): Option<Grid>
    decreases |path|
  {
    if path == [] then Some(p)
    else
      match Step(p, path[0])
      case None => None
      case Some(c) => Replay(c, path[1..])
  }

  predicate OnBorderRow(z: nat) {
    z / Cols == 0 || z / Cols == Rows - 1
  }

  predicate OnBorderCol(z: nat) {
    z % Cols == 0 || z % Cols == Cols - 1
  }

  /** Cell k holds the blank, and no earlier cell does. */
  predicate BlankFirstAt(p: Grid, k: int) {
    0 <= k < Cells && p[k] == Blank && forall j :: 0 <= j < k ==> p[j] != Blank
  }

  /** The grid holds exactly one blank. */
  predicate OneBlank(p: Grid) {
    && Blank in p
    && forall i, j :: 0 <= i < Cells && 0 <= j < Cells && p[i] == Blank && p[j] == Blank ==> i == j
  }

  lemma ChildrenExplicit(p: Grid)
    requires Blank in p
    ensures Children(p) == Offer(p, Right) + Offer(p, Left) + Offer(p, Down) + Offer(p, Up)
  {
    assert Directions[..3] == [Right, Left, Down];
    assert [Right, Left, Down][..2] == [Right, Left];
    assert [Right, Left][..1] == [Right];
    assert [Right][..0] == [];
    assert ChildrenFor(p, [Right]) == Offer(p, Right);
    assert ChildrenFor(p, [Right, Left]) == Offer(p, Right) + Offer(p, Left);
    assert ChildrenFor(p, [Right, Left, Down]) == Offer(p, Right) + Offer(p, Left) + Offer(p, Down);
  }

  lemma {:induction false} LookupAppend(a: seq<(Move, Grid)>, b: seq<(Move, Grid)>, m: Move)
    ensures Lookup(a + b, m) == if Lookup(a, m).Some? then Lookup(a, m) else Lookup(b, m)
    decreases |a|
  {
    if a != [] {
      assert (a + b)[0] == a[0];
      assert (a + b)[1..] == a[1..] + b;
      LookupAppend(a[1..], b, m);
    } else {
      assert a + b == b;
    }
  }

  /**
   * Following the get_children entry for m is the same as moving the blank
   * in direction m: there is an entry exactly when the destination is inside
   * the grid, and it holds the swapped grid.
   */
  lemma LookupIsStep(p: Grid, m: Move)
    requires Blank in p
    ensures Lookup(Children(p), m) == Step(p, m)
  {
    ChildrenExplicit(p);
    var r, l, d, u := Offer(p, Right), Offer(p, Left), Offer(p, Down), Offer(p, Up);
    LookupAppend(r + l + d, u, m);
    LookupAppend(r + l, d, m);
    LookupAppend(r, l, m);
    LookupOffer(p, Right, m);
    LookupOffer(p, Left, m);
    LookupOffer(p, Down, m);
    LookupOffer(p, Up, m);
  }

  /** The entry for direction x holds a child under m only when x is m. */
  lemma LookupOffer(p: Grid, x: Move, m: Move)
    requires Blank in p
    ensures Lookup(Offer(p, x), m) == if x == m then Slide(p, m) else None
  {
    if Slide(p, x).Some? {
      assert Offer(p, x) == [(x, Slide(p, x).value)];
      assert Offer(p, x)[1..] == [];
    }
  }

  /** Every item built for the directions ms is the legal slide its key names, and its key is one of ms. */
  lemma {:induction false} ChildrenForSound(p: Grid, ms: seq<Move>)
    requires Blank in p
    ensures forall j :: 0 <= j < |ChildrenFor(p, ms)| ==>
      ChildrenFor(p, ms)[j].0 in ms && Slide(p, ChildrenFor(p, ms)[j].0) == Some(ChildrenFor(p, ms)[j].1)
    decreases |ms|
  {
    if ms != [] {
      var init, last := ms[..|ms| - 1], ms[|ms| - 1];
      ChildrenForSound(p, init);
      var front, cs := ChildrenFor(p, init), ChildrenFor(p, ms);
      assert cs == front + Offer(p, last);
      forall j | 0 <= j < |cs|
        ensures cs[j].0 in ms && Slide(p, cs[j].0) == Some(cs[j].1)
      {
        if j < |front| {
          assert cs[j] == front[j];
          var i :| 0 <= i < |init| && init[i] == front[j].0;
          assert ms[i] == init[i];
        } else {
          assert cs[j] == (last, Slide(p, last).value);
        }
      }
    }
  }

  /** When ms is in the enumeration order, so are the keys of the items built for it. */
  lemma {:induction false} ChildrenForOrdered(p: Grid, ms: seq<Move>)
    requires Blank in p
    requires forall i, j :: 0 <= i < j < |ms| ==> Rank(ms[i]) < Rank(ms[j])
    ensures forall i, j :: 0 <= i < j < |ChildrenFor(p, ms)| ==>
      Rank(ChildrenFor(p, ms)[i].0) < Rank(ChildrenFor(p, ms)[j].0)
    decreases |ms|
  {
    if ms != [] {
      var init, last := ms[..|ms| - 1], ms[|ms| - 1];
      ChildrenForOrdered(p, init);
      ChildrenForSound(p, init);
      var front, cs := ChildrenFor(p, init), ChildrenFor(p, ms);
      assert cs == front + Offer(p, last);
      forall j | 0 <= j < |front|
        ensures Rank(front[j].0) < Rank(last)
      {
        var i :| 0 <= i < |init| && init[i] == front[j].0;
        assert ms[i] == init[i];
      }
      forall i, j | 0 <= i < j < |cs|
        ensures Rank(cs[i].0) < Rank(cs[j].0)
      {
        assert cs[i] == front[i];
        if j < |front| {
          assert cs[j] == front[j];
        } else {
          assert cs[j].0 == last;
        }
      }
    }
  }

  /** The item a successful lookup finds. */
  lemma {:induction false} LookupIndex(entries: seq<(Move, Grid)>, m: Move) returns (j: nat)
    requires Lookup(entries, m).Some?
    ensures j < |entries| && entries[j] == (m, Lookup(entries, m).value)
    decreases |entries|
  {
    if entries[0].0 == m {
      j := 0;
    } else {
      var k := LookupIndex(entries[1..], m);
      j := k + 1;
    }
  }

  /**
   * The move generator, over all four directions: every item is the legal
   * slide its key names, the keys appear in the order R, L, D, U (so none
   * repeats), and there is an item for m exactly when the blank may move in
   * direction m.
   */
  lemma ChildrenSpec(p: Grid)
    requires Blank in p
    ensures var cs := Children(p);
      && (forall j :: 0 <= j < |cs| ==> Slide(p, cs[j].0) == Some(cs[j].1))
      && (forall i, j :: 0 <= i < j < |cs| ==> Rank(cs[i].0) < Rank(cs[j].0))
      && (forall m :: Slide(p, m).Some? <==> exists j :: 0 <= j < |cs| && cs[j].0 == m)
  {
    ChildrenForSound(p, Directions);
    ChildrenForOrdered(p, Directions);
    var cs := Children(p);
    forall m | Slide(p, m).Some?
      ensures exists j :: 0 <= j < |cs| && cs[j].0 == m
    {
      LookupIsStep(p, m);
      var j := LookupIndex(cs, m);
    }
  }

  /**
   * The number of children: 2 for a blank in a corner, 3 for a blank on an
   * edge, 4 for a blank in the centre.
   */
  lemma ChildrenCount(p: Grid)
    requires Blank in p
    ensures var z := FirstBlank(p);
      && (OnBorderRow(z) && OnBorderCol(z) ==> |Children(p)| == 2)
      && (OnBorderRow(z) != OnBorderCol(z) ==> |Children(p)| == 3)
      && (!OnBorderRow(z) && !OnBorderCol(z) ==> |Children(p)| == 4)
  {
    ChildrenExplicit(p);
    var z := FirstBlank(p);
    assert z < 9;
  }

  lemma FirstBlankAt(s: Grid, k: nat)
    requires OneBlank(s) && k < Cells && s[k] == Blank
    ensures FirstBlank(s) == k
  {
  }

  lemma DestinationBack(z: nat, m: Move)
    requires z < Cells && Destination(z, m).Some?
    ensures Destination(Destination(z, m).value, Opposite(m)) == Some(z)
  {
  }

  /**
   * A slide is undone by the opposite slide, on a grid with one blank; the
   * child again has one blank.
   */
  lemma SlideInverse(p: Grid, m: Move)
    requires OneBlank(p) && Slide(p, m).Some?
    ensures OneBlank(Slide(p, m).value)
    ensures Slide(Slide(p, m).value, Opposite(m)) == Some(p)
  {
    var c := Slide(p, m).value;
    var z, t := FirstBlank(p), Destination(FirstBlank(p), m).value;
    forall k | 0 <= k < Cells && k != t
      ensures c[k] != Blank
    {
      if k == z {
        assert c[k] == p[t];
      }
    }
    FirstBlankAt(c, t);
    DestinationBack(z, m);
    assert Swap(c, t, z) == p;
  }

  lemma {:induction false} ReplaySnoc(p: Grid, path: Path, m: Move)
    ensures Replay(p, path + [m]) ==
      match Replay(p, path)
      case None => None
      case Some(x) => Step(x, m)
    decreases |path|
  {
    if path == [] {
      assert [m][1..] == [];
    } else {
      assert (path + [m])[0] == path[0];
      assert (path + [m])[1..] == path[1..] + [m];
      match Step(p, path[0])
      case None =>
      case Some(c) => ReplaySnoc(c, path[1..], m);
    }
  }

  /**
   * Finds the blank by scanning the rows, and within a row the columns, in
   * order, and stopping at the first blank.
   */
  method FindBlank(p: Grid) returns (zeroRow: nat, zeroCol: nat)
    requires Blank in p
    ensures zeroRow < Rows && zeroCol < Cols
    ensures zeroRow * Cols + zeroCol == FirstBlank(p)
  {
    var found := false;
    zeroRow, zeroCol := 0, 0;
    var row := 0;
    while row < Rows
      invariant 0 <= row <= Rows
      invariant !found ==> forall k :: 0 <= k < row * Cols ==> p[k] != Blank
      invariant found ==> row < Rows && zeroRow < Rows && zeroCol < Cols
      invariant found ==> BlankFirstAt(p, zeroRow * Cols + zeroCol)
    {
      var col := 0;
      while col < Cols
        invariant 0 <= col <= Cols
        invariant !found ==> forall k :: 0 <= k < row * Cols + col ==> p[k] != Blank
        invariant found ==> zeroRow < Rows && zeroCol < Cols
        invariant found ==> BlankFirstAt(p, zeroRow * Cols + zeroCol)
      {
        if p[row * Cols + col] == Blank {
          zeroRow, zeroCol := row, col;
          found := true;
          break;
        }
        col := col + 1;
      }
      if found {
        break;
      }
      row := row + 1;
    }
  }

  /** Copies p into a fresh array, swaps cells z and t there, and returns the copy. */
  method CopySwapped(p: Grid, z: nat, t: nat) returns (q: Grid)
    requires z < Cells && t < Cells
    ensures q == Swap(p, z, t)
  {
    var copy := new int[Cells](k requires 0 <= k < Cells => p[k]);
    copy[z], copy[t] := copy[t], copy[z];
    q := copy[..];
  }

  /** Trying one more direction appends its entry. */
  lemma ChildrenForStep(p: Grid, ms: seq<Move>, i: nat)
    requires Blank in p && i < |ms|
    ensures ChildrenFor(p, ms[..i + 1]) == ChildrenFor(p, ms[..i]) + Offer(p, ms[i])
  {
    assert ms[..i + 1][..i] == ms[..i];
  }

  /** With the blank at row zeroRow and column zeroCol, the entry for m is the swap with the cell m points to, when it is inside the grid. */
  lemma OfferAt(p: Grid, zeroRow: nat, zeroCol: nat, m: Move)
    requires Blank in p && zeroRow < Rows && zeroCol < Cols && zeroRow * Cols + zeroCol == FirstBlank(p)
    ensures var newRow, newCol := zeroRow + DRow(m), zeroCol + DCol(m);
      Offer(p, m) == if 0 <= newRow < Rows && 0 <= newCol < Cols
                     then [(m, Swap(p, zeroRow * Cols + zeroCol, newRow * Cols + newCol))] else []
  {
    var z := zeroRow * Cols + zeroCol;
    assert z / Cols == zeroRow && z % Cols == zeroCol;
  }

  /**
   * One direction of the move generator: when the cell m points to from the
   * blank at row zeroRow and column zeroCol is inside the grid, the entry
   * for m holding a swapped copy of p; otherwise no entry.
   */
  method OfferFrom(p: Grid, zeroRow: nat, zeroCol: nat, m: Move) returns (entry: seq<(Move, Grid)>)
    requires Blank in p && zeroRow < Rows && zeroCol < Cols && zeroRow * Cols + zeroCol == FirstBlank(p)
    ensures entry == Offer(p, m)
  {
    OfferAt(p, zeroRow, zeroCol, m);
    var newRow, newCol := zeroRow + DRow(m), zeroCol + DCol(m);
    if 0 <= newRow < Rows && 0 <= newCol < Cols {
      var child := CopySwapped(p, zeroRow * Cols + zeroCol, newRow * Cols + newCol);
      entry := [(m, child)];
    } else {
      entry := [];
    }
  }

  /**
   * The move generator: finds the blank, then for each direction in the order
   * R, L, D, U whose destination is inside the grid copies the grid, swaps the
   * blank with the tile at the destination in the copy, and stores the copy
   * under that direction.  The input is a value and is left as it was.
   */
  method GetChildren(p: Grid) returns (children: seq<(Move, Grid)>)
    requires Blank in p
    ensures children == Children(p)
  {
    var zeroRow, zeroCol := FindBlank(p);
    children := [];
    var i := 0;
    while i < |Directions|
      invariant 0 <= i <= |Directions|
      invariant children == ChildrenFor(p, Directions[..i])
    {
      var m := Directions[i];
      ChildrenForStep(p, Directions, i);
      var entry := OfferFrom(p, zeroRow, zeroCol, m);
      children := children + entry;
      i := i + 1;
    }
    assert Directions[..4] == Directions;
  }
}
