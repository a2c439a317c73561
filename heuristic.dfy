/**
 * The misplaced-tiles heuristic of the greedy search (misplaced_tiles in
 * puzzle-8.py).  Every cell is compared with the goal, the blank's cell
 * included, so a state one slide away from the goal scores 2, not 1.
 */
module Heuristic {
  import opened Board

  /** The number of positions at which a and b hold different labels. */
  function Mismatches(a: seq<int>, b: seq<int>): (r: nat)
    requires |a| == |b|
    ensures r <= |a|
    ensures r == 0 <==> a == b
    decreases |a|
  {
    if a == [] then 0
    else
      var n := |a| - 1;
      assert a == b <==> a[..n] == b[..n] && a[n] == b[n] by {
        assert a == a[..n] + [a[n]] && b == b[..n] + [b[n]];
      }
      Mismatches(a[..n], b[..n]) + (if a[n] != b[n] then 1 else 0)
  }

  /** The positions at which a and b hold different labels. */
  ghost function MismatchCells(a: seq<int>, b: seq<int>): set<nat>
    requires |a| == |b|
  {
    set i: nat | i < |a| && a[i] != b[i]
  }

  /**
   * misplaced_tiles: the number of cells whose label differs from the goal's.
   * It lies between 0 and the number of cells, and is 0 exactly at the goal.
   */
  function Misplaced(p: Grid, goal: Grid): (r: nat)
    ensures r <= Cells
    ensures r == 0 <==> p == goal
  {
    Mismatches(p, goal)
  }

  /** Mismatches counts exactly the positions that differ. */
  lemma {:induction false} MismatchesCount(a: seq<int>, b: seq<int>)
    requires |a| == |b|
    ensures Mismatches(a, b) == |MismatchCells(a, b)|
    decreases |a|
  {
    if a != [] {
      var n := |a| - 1;
      MismatchesCount(a[..n], b[..n]);
      var front := MismatchCells(a[..n], b[..n]);
      if a[n] != b[n] {
        assert MismatchCells(a, b) == front + {n};
      } else {
        assert MismatchCells(a, b) == front;
      }
    } else {
      assert MismatchCells(a, b) == {};
    }
  }

  /** The misplaced-tiles score is the number of cells, the blank's included, that differ from the goal. */
  lemma MisplacedCountsCells(p: Grid, goal: Grid)
    ensures Misplaced(p, goal) == |set i: nat | i < Cells && p[i] != goal[i]|
  {
    MismatchesCount(p, goal);
  }

  /**
   * The blank counts: a state one legal slide away from a goal with one blank
   * differs from it in two cells, the blank's and the moved tile's.
   */
  lemma OneSlideFromGoal(goal: Grid, m: Move)
    requires OneBlank(goal) && Slide(goal, m).Some?
    ensures Misplaced(Slide(goal, m).value, goal) == 2
  {
    var c := Slide(goal, m).value;
    SlideSwaps(goal, m);
    var z, t := FirstBlank(goal), Destination(FirstBlank(goal), m).value;
    assert goal[t] != Blank;
    MismatchesCount(c, goal);
    assert MismatchCells(c, goal) == {z, t};
  }
}
