/**
 * What the two searches of puzzle-8.py (bfs and best_first_search) share:
 * their result, the finite set of states they can meet, and the facts about
 * a visited set that is closed under the move generator.
 */
module Exploration {
  import opened Wrappers
  import opened Board

  /**
   * The outcome of a search: the path to the goal and the number of states
   * taken off the frontier, or (None, None) when the frontier runs empty.
   */
  datatype SearchResult = Found(path: Path, nodesExpanded: nat) | NotFound

  /** A frontier entry of the breadth-first search: a state and the path that reached it. */
  datatype Node = Node(grid: Grid, path: Path)

  /** The states held by a list of frontier entries. */
  ghost function GridsOf(f: seq<Node>): set<Grid> {
    set i | 0 <= i < |f| :: f[i].grid
  }

  /** No state is held by two entries. */
  ghost predicate DistinctGrids(f: seq<Node>) {
    forall i, j :: 0 <= i < j < |f| ==> f[i].grid != f[j].grid
  }

  lemma GridsOfAppend(f: seq<Node>, n: Node)
    ensures GridsOf(f + [n]) == GridsOf(f) + {n.grid}
  {
    var g := f + [n];
    forall x | x in GridsOf(g) ensures x in GridsOf(f) + {n.grid} {
      var i :| 0 <= i < |g| && g[i].grid == x;
      if i < |f| { assert f[i] == g[i]; }
    }
    forall x | x in GridsOf(f) ensures x in GridsOf(g) {
      var i :| 0 <= i < |f| && f[i].grid == x;
      assert g[i] == f[i];
    }
    assert g[|f|] == n;
  }

  /** Taking the head off a frontier whose states are distinct removes exactly the head's state. */
  lemma GridsOfTail(f: seq<Node>)
    requires f != [] && DistinctGrids(f)
    ensures GridsOf(f[1..]) == GridsOf(f) - {f[0].grid}
    ensures DistinctGrids(f[1..])
  {
    var t := f[1..];
    forall x | x in GridsOf(t) ensures x in GridsOf(f) - {f[0].grid} {
      var i :| 0 <= i < |t| && t[i].grid == x;
      assert f[i + 1] == t[i];
    }
    forall x | x in GridsOf(f) - {f[0].grid} ensures x in GridsOf(t) {
      var i :| 0 <= i < |f| && f[i].grid == x;
      assert t[i - 1] == f[i];
    }
  }

  ghost function Elements(s: seq<int>): set<int> {
    set x | x in s
  }

  /** All sequences of length n over the labels e. */
  ghost function Words(n: nat, e: set<int>): set<seq<int>> {
    if n == 0 then {[]}
    else set w, x | w in Words(n - 1, e) && x in e :: [x] + w
  }

  lemma {:induction false} InWords(s: seq<int>, e: set<int>)
    requires forall i :: 0 <= i < |s| ==> s[i] in e
    ensures s in Words(|s|, e)
    decreases |s|
  {
    if s != [] {
      var w, x := s[1..], s[0];
      InWords(w, e);
      assert |w| == |s| - 1;
      assert [x] + w in Words(|s|, e);
      assert [x] + w == s;
    }
  }

  /**
   * The rearrangements of start's labels over the cells.  Slides only
   * permute labels, so every state a search from start meets is one of
   * these finitely many.
   */
  ghost function Arrangements(start: Grid): set<Grid> {
    set s: Grid | s in Words(Cells, Elements(start)) && multiset(s) == multiset(start)
  }

  lemma InArrangements(start: Grid, s: Grid)
    requires multiset(s) == multiset(start)
    ensures s in Arrangements(start)
  {
    forall i | 0 <= i < |s|
      ensures s[i] in Elements(start)
    {
      assert s[i] in multiset(s);
    }
    InWords(s, Elements(start));
  }

  /** s holds the same labels as start, each as often. */
  ghost predicate Arranged(start: Grid, s: Grid) {
    multiset(s) == multiset(start)
  }

  /** Every member of vs is a rearrangement of start. */
  ghost predicate AllArranged(start: Grid, vs: set<Grid>) {
    forall v :: v in vs ==> Arranged(start, v)
  }

  /** A set of rearrangements of start has no more members than there are rearrangements. */
  lemma ArrangedBound(start: Grid, vs: set<Grid>)
    requires AllArranged(start, vs)
    ensures |vs| <= |Arrangements(start)|
  {
    forall v | v in vs
      ensures v in Arrangements(start)
    {
      InArrangements(start, v);
    }
    SubsetCard(vs, Arrangements(start));
  }

  lemma ArrangedHasBlank(start: Grid, s: Grid)
    requires Blank in start && Arranged(start, s)
    ensures Blank in s
  {
    assert Blank in multiset(start);
  }

  /** A legal move from a rearrangement of start leads to another one. */
  lemma StepStaysArranged(start: Grid, g: Grid, m: Move)
    requires Arranged(start, g) && Blank in g && Step(g, m).Some?
    ensures Arranged(start, Step(g, m).value)
  {
    SlideSwaps(g, m);
  }

  lemma SubsetCard<T>(a: set<T>, b: set<T>)
    requires a <= b
    ensures |a| <= |b|
  {
    assert b == a + (b - a);
  }

  lemma StrictSubsetCard<T>(a: set<T>, b: set<T>)
    requires a <= b && a != b
    ensures |a| < |b|
  {
    assert !(b <= a);
    var c :| c in b && c !in a;
    SubsetCard(a, b - {c});
  }

  /** Every state of expanded has all its children in visited. */
  ghost predicate Closed(expanded: set<Grid>, visited: set<Grid>) {
    forall x, m :: x in expanded && Step(x, m).Some? ==> Step(x, m).value in visited
  }

  /** Adding a state whose children are all visited keeps the expanded states closed. */
  lemma ClosedGrow(expanded: set<Grid>, visited: set<Grid>, visited': set<Grid>, x: Grid)
    requires Closed(expanded, visited) && visited <= visited'
    requires forall m :: Step(x, m).Some? ==> Step(x, m).value in visited'
    ensures Closed(expanded + {x}, visited')
  {
  }

  lemma {:induction false} ClosedReplay(s: set<Grid>, v: Grid, q: Path)
    requires Closed(s, s) && v in s && Replay(v, q).Some?
    ensures Replay(v, q).value in s
    decreases |q|
  {
    if q != [] {
      ClosedReplay(s, Step(v, q[0]).value, q[1..]);
    }
  }

  /**
   * A set of states that contains start and holds all children of its
   * members contains every state reachable from start: a goal outside it
   * cannot be reached by any path.
   */
  lemma Unreachable(s: set<Grid>, start: Grid, goal: Grid)
    requires Closed(s, s) && start in s && goal !in s
    ensures forall q :: Replay(start, q) != Some(goal)
  {
    forall q | Replay(start, q).Some?
      ensures Replay(start, q).value != goal
    {
      ClosedReplay(s, start, q);
    }
  }
}
