/**
 * The order of the priority queue of best_first_search in puzzle-8.py.
 *
 * The queue holds tuples (priority, grid, path) and Python compares tuples,
 * lists and strings lexicographically: the first position where two of them
 * differ decides, and a proper prefix comes first.  A grid is a list of
 * three rows of three labels, so comparing two grids row by row is the same
 * as comparing their row-major flattenings; a path is a list of one-letter
 * strings, compared by character code.
 */
module Ranking {
  import opened Board

  /** An entry of the priority queue. */
  datatype Ranked = Ranked(priority: int, grid: Grid, path: Path)

  /** Python's < on two lists of integers. */
  predicate LexLess(a: seq<int>, b: seq<int>)
    decreases |a|
  {
    if a == [] then b != []
    else if b == [] then false
    else if a[0] != b[0] then a[0] < b[0]
    else LexLess(a[1..], b[1..])
  }

  /** The character codes of the letters of a path. */
  function Codes(p: Path): (r: seq<int>)
    ensures |r| == |p|
  {
    if p == [] then [] else [Letter(p[0]) as int] + Codes(p[1..])
  }

  /** Python's < on two queue entries. */
  predicate Less(a: Ranked, b: Ranked) {
    || a.priority < b.priority
    || (a.priority == b.priority && LexLess(a.grid, b.grid))
    || (a.priority == b.priority && a.grid == b.grid && LexLess(Codes(a.path), Codes(b.path)))
  }

  lemma {:induction false} LexIrreflexive(a: seq<int>)
    ensures !LexLess(a, a)
    decreases |a|
  {
    if a != [] {
      LexIrreflexive(a[1..]);
    }
  }

  lemma {:induction false} LexTransitive(a: seq<int>, b: seq<int>, c: seq<int>)
    requires LexLess(a, b) && LexLess(b, c)
    ensures LexLess(a, c)
    decreases |a|
  {
    if a != [] && a[0] == b[0] && b[0] == c[0] {
      LexTransitive(a[1..], b[1..], c[1..]);
    }
  }

  /** Two different lists are ordered one way or the other. */
  lemma {:induction false} LexTotal(a: seq<int>, b: seq<int>)
    requires a != b
    ensures LexLess(a, b) || LexLess(b, a)
    decreases |a|
  {
    if a != [] && b != [] && a[0] == b[0] {
      assert a == [a[0]] + a[1..] && b == [b[0]] + b[1..];
      LexTotal(a[1..], b[1..]);
    }
  }

  /** Different paths have different letter codes, so the path comparison never ties. */
  lemma {:induction false} CodesInjective(p: Path, q: Path)
    requires Codes(p) == Codes(q)
    ensures p == q
    decreases |p|
  {
    if p != [] {
      assert Codes(p)[0] == Codes(q)[0];
      assert Codes(p[1..]) == Codes(p)[1..] && Codes(q[1..]) == Codes(q)[1..];
      CodesInjective(p[1..], q[1..]);
      assert p == [p[0]] + p[1..] && q == [q[0]] + q[1..];
    }
  }

  lemma LessIrreflexive(a: Ranked)
    ensures !Less(a, a)
  {
    LexIrreflexive(a.grid);
    LexIrreflexive(Codes(a.path));
  }

  lemma LessTransitive(a: Ranked, b: Ranked, c: Ranked)
    requires Less(a, b) && Less(b, c)
    ensures Less(a, c)
  {
    if a.priority == b.priority == c.priority {
      if LexLess(a.grid, b.grid) && LexLess(b.grid, c.grid) {
        LexTransitive(a.grid, b.grid, c.grid);
      } else if a.grid == b.grid == c.grid {
        LexTransitive(Codes(a.path), Codes(b.path), Codes(c.path));
      }
    }
  }

  lemma LessAsymmetric(a: Ranked, b: Ranked)
    requires Less(a, b)
    ensures !Less(b, a)
  {
    if Less(b, a) {
      LessTransitive(a, b, a);
      LessIrreflexive(a);
    }
  }

  /** Two different entries are ordered one way or the other: the order is total. */
  lemma LessTotal(a: Ranked, b: Ranked)
    requires a != b
    ensures Less(a, b) || Less(b, a)
  {
    if a.priority == b.priority {
      if a.grid != b.grid {
        LexTotal(a.grid, b.grid);
      } else {
        assert a.path != b.path;
        if Codes(a.path) == Codes(b.path) {
          CodesInjective(a.path, b.path);
        }
        LexTotal(Codes(a.path), Codes(b.path));
      }
    }
  }

  /** The position of the least entry of a non-empty queue; the earliest one if several are least. */
  function Least(f: seq<Ranked>): (i: nat)
    requires f != []
    ensures i < |f|
    decreases |f|
  {
    if |f| == 1 then 0
    else
      var i := Least(f[..|f| - 1]);
      if Less(f[|f| - 1], f[i]) then |f| - 1 else i
  }

  /** No entry of the queue comes before the one at Least. */
  lemma {:induction false} LeastIsLeast(f: seq<Ranked>)
    requires f != []
    ensures forall j :: 0 <= j < |f| ==> !Less(f[j], f[Least(f)])
    decreases |f|
  {
    if |f| == 1 {
      LessIrreflexive(f[0]);
    } else {
      var init, last := f[..|f| - 1], f[|f| - 1];
      LeastIsLeast(init);
      var i := Least(init);
      assert init[i] == f[i];
      if Less(last, f[i]) {
        forall j | 0 <= j < |f|
          ensures !Less(f[j], last)
        {
          if j == |f| - 1 {
            LessIrreflexive(last);
          } else if Less(f[j], last) {
            assert init[j] == f[j];
            LessTransitive(f[j], last, f[i]);
          }
        }
      } else {
        forall j | 0 <= j < |f| - 1
          ensures !Less(f[j], f[i])
        {
          assert init[j] == f[j];
        }
      }
    }
  }

  /**
   * In a queue of pairwise different entries, the entry at Least comes
   * before every other one, and it is the only entry that no other entry
   * comes before: whatever the heap's layout, get returns this entry.
   */
  lemma LeastUnique(f: seq<Ranked>, i: nat)
    requires f != [] && forall j, k :: 0 <= j < k < |f| ==> f[j] != f[k]
    ensures forall j :: 0 <= j < |f| && j != Least(f) ==> Less(f[Least(f)], f[j])
    ensures i < |f| && (forall j :: 0 <= j < |f| ==> !Less(f[j], f[i])) ==> i == Least(f)
  {
    var l := Least(f);
    LeastIsLeast(f);
    forall j | 0 <= j < |f| && j != l
      ensures Less(f[l], f[j])
    {
      assert f[j] != f[l];
      LessTotal(f[l], f[j]);
    }
  }

  /** The queue with its entry at position i taken out, the others in their order. */
  function Remove(f: seq<Ranked>, i: nat): (r: seq<Ranked>)
    requires i < |f|
    ensures |r| == |f| - 1
    ensures forall j :: 0 <= j < |r| ==> r[j] == f[if j < i then j else j + 1]
  {
    f[..i] + f[i + 1..]
  }
}
