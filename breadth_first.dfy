/**
 * Breadth-first search (bfs in puzzle-8.py).
 *
 * The frontier is a FIFO queue of (state, path) entries and a state is marked
 * visited when it is put on the queue, not when it is taken off, so no state
 * is queued twice.  Every state on the queue carries the path it was reached
 * by; the search stops at the first dequeued state equal to the goal.
 */
module BreadthFirst {
  import opened Wrappers
  import opened Board
  import opened Exploration

  /** The path lengths of the entries never decrease from head to tail. */
  ghost predicate Sorted(f: seq<Node>) {
    forall i, j :: 0 <= i < j < |f| ==> |f[i].path| <= |f[j].path|
  }

  /** paths records, for every visited state, a path from start that reaches it. */
  ghost predicate Recorded(start: Grid, visited: set<Grid>, paths: map<Grid, Path>) {
    && paths.Keys == visited
    && forall v {:trigger paths[v]} :: v in visited ==> Replay(start, paths[v]) == Some(v)
  }

  /** No path from start reaches a visited state in fewer moves than its recorded path. */
  ghost predicate Shortest(start: Grid, visited: set<Grid>, paths: map<Grid, Path>)
    requires paths.Keys == visited
  {
    forall q {:trigger Replay(start, q)} :: Replay(start, q).Some? && Replay(start, q).value in visited ==> |paths[Replay(start, q).value]| <= |q|
  }

  /** Every visited state with a recorded path shorter than level has its children visited. */
  ghost predicate ExpandedBelow(visited: set<Grid>, paths: map<Grid, Path>, level: nat)
    requires paths.Keys == visited
  {
    forall x, m :: x in visited && |paths[x]| < level && Step(x, m).Some? ==> Step(x, m).value in visited
  }

  /**
   * Every visited state recorded below level has its children visited, each
   * recorded at most one move further than its parent.
   */
  ghost predicate Layered(visited: set<Grid>, paths: map<Grid, Path>, level: nat)
    requires paths.Keys == visited
  {
    forall x, m :: x in visited && |paths[x]| < level && Step(x, m).Some? ==>
      Step(x, m).value in visited && |paths[Step(x, m).value]| <= |paths[x]| + 1
  }

  /** Recorded shortest paths with the states below level expanded are layered. */
  lemma LayeredBelow(start: Grid, visited: set<Grid>, paths: map<Grid, Path>, level: nat)
    requires Recorded(start, visited, paths) && Shortest(start, visited, paths)
    requires ExpandedBelow(visited, paths, level)
    ensures Layered(visited, paths, level)
  {
    forall x, m | x in visited && |paths[x]| < level && Step(x, m).Some?
      ensures Step(x, m).value in visited && |paths[Step(x, m).value]| <= |paths[x]| + 1
    {
      ReplaySnoc(start, paths[x], m);
      assert Replay(start, paths[x] + [m]) == Step(x, m);
    }
  }

  /**
   * In a layered visited set, the states reachable from a visited v within
   * level moves of start, counting v's recorded path, are all visited.
   */
  lemma {:induction false} WithinLevel(visited: set<Grid>, paths: map<Grid, Path>, level: nat, v: Grid, q: Path)
    requires paths.Keys == visited && Layered(visited, paths, level)
    requires v in visited && |paths[v]| + |q| <= level && Replay(v, q).Some?
    ensures Replay(v, q).value in visited
    decreases |q|
  {
    if q != [] {
      var c := Step(v, q[0]).value;
      assert Replay(v, q) == Replay(c, q[1..]);
      WithinLevel(visited, paths, level, c, q[1..]);
    }
  }

  /**
   * A state that is not yet visited while every state recorded below level
   * has its children visited lies more than level moves from start.
   */
  lemma BeyondLevel(start: Grid, visited: set<Grid>, paths: map<Grid, Path>, level: nat, c: Grid)
    requires Recorded(start, visited, paths) && Shortest(start, visited, paths)
    requires ExpandedBelow(visited, paths, level)
    requires start in visited && c !in visited
    ensures forall q :: Replay(start, q) == Some(c) ==> level < |q|
  {
    assert Replay(start, []) == Some(start);
    LayeredBelow(start, visited, paths, level);
    forall q | Replay(start, q) == Some(c)
      ensures level < |q|
    {
      if |q| <= level {
        WithinLevel(visited, paths, level, start, q);
      }
    }
  }

  /** paths records path p for state g. */
  ghost predicate Holds(paths: map<Grid, Path>, g: Grid, p: Path) {
    g in paths && paths[g] == p
  }

  /** Every frontier entry carries the path recorded for its state. */
  ghost predicate Carries(frontier: seq<Node>, paths: map<Grid, Path>) {
    forall i :: 0 <= i < |frontier| ==> Holds(paths, frontier[i].grid, frontier[i].path)
  }

  /** Every frontier entry's path has level or level + 1 moves. */
  ghost predicate Between(frontier: seq<Node>, level: nat) {
    forall i :: 0 <= i < |frontier| ==> level <= |frontier[i].path| <= level + 1
  }

  /**
   * The queue of bfs between two steps: the visited states are the
   * dequeued ones and the queued ones, no state is queued twice, the queue
   * is ordered by path length, and every visited state has a recorded
   * path from start that is a shortest one.
   */
  ghost predicate Queued(start: Grid, expanded: set<Grid>, visited: set<Grid>, frontier: seq<Node>, paths: map<Grid, Path>) {
    && start in visited && AllArranged(start, visited)
    && expanded !! GridsOf(frontier) && visited == expanded + GridsOf(frontier)
    && DistinctGrids(frontier)
    && Recorded(start, visited, paths) && Shortest(start, visited, paths)
    && Carries(frontier, paths) && Sorted(frontier)
  }

  /** The entries dequeued so far, one per expanded state, in the order they were dequeued. */
  ghost predicate Traced(start: Grid, expanded: set<Grid>, trace: seq<Node>) {
    TraceOrdered(expanded, trace) && TraceReplays(start, trace)
  }

  /** One entry per expanded state, no state twice, path lengths never decreasing. */
  ghost predicate TraceOrdered(expanded: set<Grid>, trace: seq<Node>) {
    && |trace| == |expanded|
    && (forall i :: 0 <= i < |trace| ==> trace[i].grid in expanded)
    && (forall i, j :: 0 <= i < j < |trace| ==> trace[i].grid != trace[j].grid)
    && (forall i, j :: 0 <= i < j < |trace| ==> |trace[i].path| <= |trace[j].path|)
  }

  /** Every entry's path leads from start to its state. */
  ghost predicate TraceReplays(start: Grid, trace: seq<Node>) {
    forall i :: 0 <= i < |trace| ==> Replay(start, trace[i].path) == Some(trace[i].grid)
  }

  ghost predicate TraceBelow(trace: seq<Node>, level: nat) {
    forall i :: 0 <= i < |trace| ==> |trace[i].path| <= level
  }

  /** Taking the head off the queue keeps the queue's properties; the head's path is a shortest one to it. */
  lemma DequeueQueued(start: Grid, expanded: set<Grid>, visited: set<Grid>, frontier: seq<Node>, paths: map<Grid, Path>)
    requires Queued(start, expanded, visited, frontier, paths) && frontier != []
    requires Between(frontier, |frontier[0].path|)
    ensures frontier[0].grid in visited && frontier[0].grid !in expanded
    ensures Holds(paths, frontier[0].grid, frontier[0].path)
    ensures Replay(start, frontier[0].path) == Some(frontier[0].grid)
    ensures forall q :: Replay(start, q) == Some(frontier[0].grid) ==> |frontier[0].path| <= |q|
    ensures Queued(start, expanded + {frontier[0].grid}, visited, frontier[1..], paths)
    ensures Between(frontier[1..], |frontier[0].path|)
  {
    var n, t := frontier[0], frontier[1..];
    GridsOfTail(frontier);
    assert n.grid in GridsOf(frontier);
    assert Holds(paths, n.grid, n.path);
    forall i | 0 <= i < |t|
      ensures Holds(paths, t[i].grid, t[i].path) && |n.path| <= |t[i].path| <= |n.path| + 1
    {
      assert t[i] == frontier[i + 1];
    }
    forall i, j | 0 <= i < j < |t|
      ensures |t[i].path| <= |t[j].path|
    {
      assert t[i] == frontier[i + 1] && t[j] == frontier[j + 1];
    }
  }

  /** Recording the dequeued head extends the trace. */
  lemma DequeueOrdered(expanded: set<Grid>, trace: seq<Node>, n: Node)
    requires TraceOrdered(expanded, trace) && TraceBelow(trace, |n.path|) && n.grid !in expanded
    ensures TraceOrdered(expanded + {n.grid}, trace + [n])
    ensures TraceBelow(trace + [n], |n.path|)
  {
    var t := trace + [n];
    assert forall i :: 0 <= i < |trace| ==> t[i] == trace[i];
    assert t[|trace|] == n;
  }

  lemma DequeueReplays(start: Grid, trace: seq<Node>, n: Node)
    requires TraceReplays(start, trace) && Replay(start, n.path) == Some(n.grid)
    ensures TraceReplays(start, trace + [n])
  {
    var t := trace + [n];
    assert forall i :: 0 <= i < |trace| ==> t[i] == trace[i];
  }

  lemma DequeueTraced(start: Grid, expanded: set<Grid>, trace: seq<Node>, n: Node)
    requires Traced(start, expanded, trace) && TraceBelow(trace, |n.path|)
    requires n.grid !in expanded && Replay(start, n.path) == Some(n.grid)
    ensures Traced(start, expanded + {n.grid}, trace + [n])
    ensures TraceBelow(trace + [n], |n.path|)
  {
    DequeueOrdered(expanded, trace, n);
    DequeueReplays(start, trace, n);
  }

  /**
   * After the head at level is dequeued, every visited state recorded below
   * level is an expanded one, so its children are visited.
   */
  lemma BelowExpanded(start: Grid, expanded: set<Grid>, visited: set<Grid>, frontier: seq<Node>, paths: map<Grid, Path>, node: Node)
    requires Queued(start, expanded + {node.grid}, visited, frontier, paths)
    requires Between(frontier, |node.path|) && Holds(paths, node.grid, node.path)
    requires Closed(expanded, visited)
    ensures ExpandedBelow(visited, paths, |node.path|)
  {
    forall x, m | x in visited && |paths[x]| < |node.path| && Step(x, m).Some?
      ensures Step(x, m).value in visited
    {
      assert x !in GridsOf(frontier);
    }
  }

  /** Recording node's path extended by m for the child that move leads to keeps every recorded path correct. */
  lemma RecordChild(start: Grid, visited: set<Grid>, paths: map<Grid, Path>, node: Node, m: Move, child: Grid)
    requires Recorded(start, visited, paths) && node.grid in visited && Holds(paths, node.grid, node.path)
    requires Blank in node.grid && Slide(node.grid, m) == Some(child)
    ensures Recorded(start, visited + {child}, paths[child := node.path + [m]])
  {
    ReplaySnoc(start, node.path, m);
  }

  /**
   * The path recorded for a new child found from a head at level is a
   * shortest one, since the child lies beyond level.
   */
  lemma ShortestChild(start: Grid, visited: set<Grid>, paths: map<Grid, Path>, node: Node, m: Move, child: Grid)
    requires Recorded(start, visited, paths) && Shortest(start, visited, paths) && start in visited
    requires ExpandedBelow(visited, paths, |node.path|) && child !in visited
    ensures Shortest(start, visited + {child}, paths[child := node.path + [m]])
  {
    var visited', paths' := visited + {child}, paths[child := node.path + [m]];
    BeyondLevel(start, visited, paths, |node.path|, child);
    forall q | Replay(start, q).Some? && Replay(start, q).value in visited'
      ensures |paths'[Replay(start, q).value]| <= |q|
    {
      var v := Replay(start, q).value;
      if v != child {
        assert paths'[v] == paths[v];
      }
    }
  }

  /** A new child recorded one move beyond level leaves the states recorded below level as they were. */
  lemma BelowChild(visited: set<Grid>, paths: map<Grid, Path>, level: nat, path: Path, child: Grid)
    requires paths.Keys == visited && ExpandedBelow(visited, paths, level) && child !in visited && level < |path|
    ensures ExpandedBelow(visited + {child}, paths[child := path], level)
  {
    var paths' := paths[child := path];
    forall x, m | x in visited + {child} && |paths'[x]| < level && Step(x, m).Some?
      ensures Step(x, m).value in visited + {child}
    {
      assert x != child && paths'[x] == paths[x];
    }
  }

  /**
   * Putting a new entry n one move beyond level at the back of the queue
   * keeps the queue free of repeats, ordered, and in step with the visited
   * set and the recorded paths.
   */
  lemma QueueChild(expanded: set<Grid>, visited: set<Grid>, frontier: seq<Node>, paths: map<Grid, Path>, level: nat, n: Node)
    requires expanded !! GridsOf(frontier) && visited == expanded + GridsOf(frontier)
    requires DistinctGrids(frontier) && Carries(frontier, paths) && Sorted(frontier) && Between(frontier, level)
    requires n.grid !in visited && |n.path| == level + 1
    ensures expanded !! GridsOf(frontier + [n]) && visited + {n.grid} == expanded + GridsOf(frontier + [n])
    ensures DistinctGrids(frontier + [n]) && Carries(frontier + [n], paths[n.grid := n.path])
    ensures Sorted(frontier + [n]) && Between(frontier + [n], level)
  {
    var frontier' := frontier + [n];
    GridsOfAppend(frontier, n);
    assert forall i :: 0 <= i < |frontier| ==> frontier'[i] == frontier[i];
    assert frontier'[|frontier|] == n;
    forall i | 0 <= i < |frontier|
      ensures frontier[i].grid != n.grid && Holds(paths[n.grid := n.path], frontier'[i].grid, frontier'[i].path)
    {
      assert frontier[i].grid in GridsOf(frontier);
      assert Holds(paths, frontier[i].grid, frontier[i].path);
    }
  }

  /** Putting one new child of node at the back of the queue keeps the queue's properties. */
  lemma EnqueueOne(start: Grid, expanded: set<Grid>, visited: set<Grid>, frontier: seq<Node>, paths: map<Grid, Path>,
                   node: Node, m: Move, child: Grid)
    requires Queued(start, expanded, visited, frontier, paths)
    requires Between(frontier, |node.path|) && ExpandedBelow(visited, paths, |node.path|)
    requires node.grid in visited && Holds(paths, node.grid, node.path) && Blank in node.grid
    requires Slide(node.grid, m) == Some(child) && child !in visited
    ensures Queued(start, expanded, visited + {child}, frontier + [Node(child, node.path + [m])], paths[child := node.path + [m]])
    ensures Between(frontier + [Node(child, node.path + [m])], |node.path|)
    ensures ExpandedBelow(visited + {child}, paths[child := node.path + [m]], |node.path|)
  {
    StepStaysArranged(start, node.grid, m);
    RecordChild(start, visited, paths, node, m, child);
    ShortestChild(start, visited, paths, node, m, child);
    BelowChild(visited, paths, |node.path|, node.path + [m], child);
    QueueChild(expanded, visited, frontier, paths, |node.path|, Node(child, node.path + [m]));
  }

  /** Once a dequeued state's children are visited, the next head starts the next round. */
  lemma Advance(trace: seq<Node>, frontier: seq<Node>, level: nat)
    requires Sorted(frontier) && Between(frontier, level) && TraceBelow(trace, level)
    ensures frontier != [] ==> Between(frontier, |frontier[0].path|) && TraceBelow(trace, |frontier[0].path|)
  {
  }

  /**
   * The variables of bfs between two rounds of its loop: the visited set,
   * the queue and the count of dequeued states, together with the dequeued
   * states, a path for every visited state and the dequeued entries in
   * order, which the proof keeps alongside.
   */
  datatype Config = Config(visited: set<Grid>, frontier: seq<Node>, nodesExpanded: nat,
                           expanded: set<Grid>, paths: map<Grid, Path>, trace: seq<Node>)

  /** The variables before the first round: only start is visited and queued, with the empty path. */
  ghost function Initial(start: Grid): Config {
    Config({start}, [Node(start, [])], 0, {}, map[start := []], [])
  }

  /** Taking the head off the queue and counting it. */
  ghost function Pop(c: Config): Config
    requires c.frontier != []
  {
    var n := c.frontier[0];
    c.(frontier := c.frontier[1..], nodesExpanded := c.nodesExpanded + 1,
       expanded := c.expanded + {n.grid}, trace := c.trace + [n])
  }

  /**
   * The loop over the children entries cs of node, in order: a child not yet
   * visited is marked visited and queued with the node's path extended by
   * its move; a visited one is skipped.
   */
  ghost function Enqueue(node: Node, cs: seq<(Move, Grid)>, c: Config): Config
    decreases |cs|
  {
    if cs == [] then c
    else
      var d := Enqueue(node, cs[..|cs| - 1], c);
      var (m, child) := cs[|cs| - 1];
      if child in d.visited then d
      else d.(visited := d.visited + {child},
              frontier := d.frontier + [Node(child, node.path + [m])],
              paths := d.paths[child := node.path + [m]])
  }

  /** The loop over the children entries changes only the visited set, the queue and the recorded paths. */
  lemma {:induction false} EnqueueFrame(node: Node, cs: seq<(Move, Grid)>, c: Config)
    ensures Enqueue(node, cs, c).nodesExpanded == c.nodesExpanded
    ensures Enqueue(node, cs, c).expanded == c.expanded && Enqueue(node, cs, c).trace == c.trace
    decreases |cs|
  {
    if cs != [] {
      EnqueueFrame(node, cs[..|cs| - 1], c);
    }
  }

  /** The loop stops: the queue is empty, or its head is the goal and is returned. */
  ghost predicate Halted(goal: Grid, c: Config) {
    c.frontier == [] || c.frontier[0].grid == goal
  }

  /**
   * One round of the loop: the head is dequeued and its children are
   * enqueued.  A halted loop stays as it is; so does one whose head has no
   * blank, which never happens (HeadHasBlank).
   */
  ghost function Round(goal: Grid, c: Config): Config {
    if Halted(goal, c) || Blank !in c.frontier[0].grid then c
    else Enqueue(c.frontier[0], Children(c.frontier[0].grid), Pop(c))
  }

  /** The variables after k rounds. */
  ghost function Run(start: Grid, goal: Grid, k: nat): Config {
    if k == 0 then Initial(start) else Round(goal, Run(start, goal, k - 1))
  }

  /**
   * What holds between two rounds: the queue's properties, a bound on the
   * visited states, the layering of the queue by path length, the goal not
   * yet dequeued, the children of every dequeued state visited, and the
   * dequeued entries in order.
   */
  ghost predicate Invariant(start: Grid, goal: Grid, c: Config) {
    && Queued(start, c.expanded, c.visited, c.frontier, c.paths)
    && |c.visited| <= |Arrangements(start)|
    && (c.frontier != [] ==> Between(c.frontier, |c.frontier[0].path|) && TraceBelow(c.trace, |c.frontier[0].path|))
    && goal !in c.expanded && Closed(c.expanded, c.visited)
    && c.nodesExpanded == |c.trace| && Traced(start, c.expanded, c.trace)
  }

  /** The queue holding only start, with the empty path, has the queue's properties. */
  lemma InitialQueued(start: Grid)
    ensures Queued(start, {}, {start}, [Node(start, [])], map[start := []])
  {
    var f := [Node(start, [])];
    assert AllArranged(start, {start});
    assert GridsOf(f) == {start} by {
      GridsOfAppend([], Node(start, []));
      assert [] + [Node(start, [])] == f;
    }
    assert Holds(map[start := []], f[0].grid, f[0].path);
  }

  lemma InitialInvariant(start: Grid, goal: Grid)
    ensures Invariant(start, goal, Initial(start))
  {
    InitialQueued(start);
    assert AllArranged(start, {start});
    ArrangedBound(start, {start});
  }

  /**
   * The loop over the children entries visits every child, only adds to the
   * visited set, and leaves the queue alone when it adds nothing.
   */
  lemma {:induction false} EnqueueVisits(node: Node, cs: seq<(Move, Grid)>, c: Config)
    ensures c.visited <= Enqueue(node, cs, c).visited
    ensures Enqueue(node, cs, c).visited == c.visited ==> Enqueue(node, cs, c).frontier == c.frontier
    ensures forall j :: 0 <= j < |cs| ==> cs[j].1 in Enqueue(node, cs, c).visited
    decreases |cs|
  {
    if cs != [] {
      var init := cs[..|cs| - 1];
      EnqueueVisits(node, init, c);
      assert forall j :: 0 <= j < |init| ==> init[j] == cs[j];
    }
  }

  /** The loop over the children entries of node keeps the queue's properties. */
  lemma {:induction false} EnqueueAll(start: Grid, node: Node, cs: seq<(Move, Grid)>, c: Config)
    requires Queued(start, c.expanded, c.visited, c.frontier, c.paths)
    requires Between(c.frontier, |node.path|) && ExpandedBelow(c.visited, c.paths, |node.path|)
    requires node.grid in c.visited && Holds(c.paths, node.grid, node.path) && Blank in node.grid
    requires forall j :: 0 <= j < |cs| ==> Slide(node.grid, cs[j].0) == Some(cs[j].1)
    ensures Queued(start, c.expanded, Enqueue(node, cs, c).visited, Enqueue(node, cs, c).frontier, Enqueue(node, cs, c).paths)
    ensures Between(Enqueue(node, cs, c).frontier, |node.path|)
    ensures ExpandedBelow(Enqueue(node, cs, c).visited, Enqueue(node, cs, c).paths, |node.path|)
    ensures Holds(Enqueue(node, cs, c).paths, node.grid, node.path)
    decreases |cs|
  {
    if cs != [] {
      var init := cs[..|cs| - 1];
      assert forall j :: 0 <= j < |init| ==> init[j] == cs[j];
      EnqueueAll(start, node, init, c);
      EnqueueVisits(node, init, c);
      var d := Enqueue(node, init, c);
      var (m, child) := cs[|cs| - 1];
      if child !in d.visited {
        EnqueueOne(start, c.expanded, d.visited, d.frontier, d.paths, node, m, child);
      }
    }
  }

  /** The queue's properties survive a round. */
  lemma RoundQueued(start: Grid, goal: Grid, c: Config)
    requires Invariant(start, goal, c) && !Halted(goal, c) && Blank in start
    ensures Blank in c.frontier[0].grid
    ensures Queued(start, Round(goal, c).expanded, Round(goal, c).visited, Round(goal, c).frontier, Round(goal, c).paths)
    ensures Between(Round(goal, c).frontier, |c.frontier[0].path|)
    ensures Closed(Round(goal, c).expanded, Round(goal, c).visited)
    ensures Round(goal, c) == Enqueue(c.frontier[0], Children(c.frontier[0].grid), Pop(c))
    ensures c.visited <= Round(goal, c).visited
    ensures Round(goal, c).visited == c.visited ==> |Round(goal, c).frontier| < |c.frontier|
  {
    var node, p := c.frontier[0], Pop(c);
    DequeueQueued(start, c.expanded, c.visited, c.frontier, c.paths);
    BelowExpanded(start, c.expanded, c.visited, p.frontier, c.paths, node);
    assert AllArranged(start, c.visited);
    ArrangedHasBlank(start, node.grid);
    ChildrenSpec(node.grid);
    EnqueueAll(start, node, Children(node.grid), p);
    EnqueueVisits(node, Children(node.grid), p);
    RoundFrame(goal, c);
    var d := Round(goal, c);
    forall m | Step(node.grid, m).Some?
      ensures Step(node.grid, m).value in d.visited
    {
      var j :| 0 <= j < |Children(node.grid)| && Children(node.grid)[j].0 == m;
    }
    ClosedGrow(c.expanded, c.visited, d.visited, node.grid);
  }

  /** A round that does not halt counts the head, marks it expanded and appends it to the trace. */
  lemma RoundFrame(goal: Grid, c: Config)
    requires !Halted(goal, c) && Blank in c.frontier[0].grid
    ensures Round(goal, c).nodesExpanded == c.nodesExpanded + 1
    ensures Round(goal, c).expanded == c.expanded + {c.frontier[0].grid}
    ensures Round(goal, c).trace == c.trace + [c.frontier[0]]
  {
    EnqueueFrame(c.frontier[0], Children(c.frontier[0].grid), Pop(c));
  }

  /** A round keeps the rest of the invariant. */
  lemma RoundInvariant(start: Grid, goal: Grid, c: Config)
    requires Invariant(start, goal, c) && !Halted(goal, c) && Blank in start
    ensures Invariant(start, goal, Round(goal, c))
  {
    var node, p := c.frontier[0], Pop(c);
    RoundQueued(start, goal, c);
    RoundFrame(goal, c);
    DequeueQueued(start, c.expanded, c.visited, c.frontier, c.paths);
    DequeueTraced(start, c.expanded, c.trace, node);
    var d := Round(goal, c);
    Advance(d.trace, d.frontier, |node.path|);
    assert AllArranged(start, d.visited);
    ArrangedBound(start, d.visited);
  }

  lemma {:induction false} RunInvariant(start: Grid, goal: Grid, k: nat)
    requires Blank in start
    ensures Invariant(start, goal, Run(start, goal, k))
  {
    if k == 0 {
      InitialInvariant(start, goal);
    } else {
      RunInvariant(start, goal, k - 1);
      var c := Run(start, goal, k - 1);
      if !Halted(goal, c) {
        RoundInvariant(start, goal, c);
      }
    }
  }

  /** A round that does not halt visits more states, or leaves the visited set alone and shortens the queue. */
  lemma RunProgress(start: Grid, goal: Grid, k: nat)
    requires Blank in start && !Halted(goal, Run(start, goal, k))
    ensures Blank in Run(start, goal, k).frontier[0].grid
    ensures Run(start, goal, k + 1) == Enqueue(Run(start, goal, k).frontier[0], Children(Run(start, goal, k).frontier[0].grid), Pop(Run(start, goal, k)))
    ensures Run(start, goal, k).visited <= Run(start, goal, k + 1).visited
    ensures Run(start, goal, k + 1).visited == Run(start, goal, k).visited ==> |Run(start, goal, k + 1).frontier| < |Run(start, goal, k).frontier|
    ensures |Run(start, goal, k + 1).visited| <= |Arrangements(start)|
  {
    RunInvariant(start, goal, k);
    RoundQueued(start, goal, Run(start, goal, k));
    RunInvariant(start, goal, k + 1);
  }

  /** With start itself the goal, the loop halts at once. */
  lemma {:induction false} RunAtGoal(start: Grid, k: nat)
    ensures Run(start, start, k) == Initial(start)
  {
    if k > 0 {
      RunAtGoal(start, k - 1);
      assert Halted(start, Initial(start));
    }
  }

  /** The invariant also holds when start has no blank but is the goal, since then the loop never moves. */
  lemma InvariantAt(start: Grid, goal: Grid, k: nat)
    requires Blank in start || start == goal
    ensures Invariant(start, goal, Run(start, goal, k))
  {
    if Blank in start {
      RunInvariant(start, goal, k);
    } else {
      RunAtGoal(start, k);
      InitialInvariant(start, goal);
    }
  }

  /**
   * When the head of the queue is the goal, bfs returns its path and the
   * count: the path is a shortest one from start to the goal, the count is
   * the number of dequeued states, and the dequeued entries are distinct
   * states in order of path length, each reached by its path.
   */
  lemma FoundAt(start: Grid, goal: Grid, k: nat, n: Node, count: nat, trace: seq<Node>)
    requires (Blank in start || start == goal) && Run(start, goal, k).frontier != [] && n == Run(start, goal, k).frontier[0] && n.grid == goal
    requires count == Run(start, goal, k).nodesExpanded + 1 && trace == Run(start, goal, k).trace + [n]
    ensures start == goal ==> n.path == [] && count == 1
    ensures Replay(start, n.path) == Some(goal)
    ensures forall q :: Replay(start, q) == Some(goal) ==> |n.path| <= |q|
    ensures 1 <= count == |trace| <= |Arrangements(start)|
    ensures trace[|trace| - 1] == Node(goal, n.path)
    ensures forall i, j :: 0 <= i < j < |trace| ==> trace[i].grid != trace[j].grid
    ensures forall i, j :: 0 <= i < j < |trace| ==> |trace[i].path| <= |trace[j].path|
    ensures forall i :: 0 <= i < |trace| ==> Replay(start, trace[i].path) == Some(trace[i].grid)
  {
    if start == goal {
      RunAtGoal(start, k);
    }
    InvariantAt(start, goal, k);
    FoundIn(start, goal, Run(start, goal, k), n, count, trace);
  }

  /** The properties of FoundAt, for any variables that satisfy the invariant. */
  lemma FoundIn(start: Grid, goal: Grid, c: Config, n: Node, count: nat, trace: seq<Node>)
    requires Invariant(start, goal, c) && c.frontier != [] && n == c.frontier[0] && n.grid == goal
    requires count == c.nodesExpanded + 1 && trace == c.trace + [n]
    ensures Replay(start, n.path) == Some(goal)
    ensures forall q :: Replay(start, q) == Some(goal) ==> |n.path| <= |q|
    ensures 1 <= count == |trace| <= |Arrangements(start)|
    ensures trace[|trace| - 1] == Node(goal, n.path)
    ensures forall i, j :: 0 <= i < j < |trace| ==> trace[i].grid != trace[j].grid
    ensures forall i, j :: 0 <= i < j < |trace| ==> |trace[i].path| <= |trace[j].path|
    ensures forall i :: 0 <= i < |trace| ==> Replay(start, trace[i].path) == Some(trace[i].grid)
  {
    DequeueQueued(start, c.expanded, c.visited, c.frontier, c.paths);
    DequeueTraced(start, c.expanded, c.trace, n);
    SubsetCard(c.expanded + {n.grid}, c.visited);
    assert trace[|trace| - 1] == n;
  }

  /**
   * When the queue runs empty, no path from start reaches the goal, and the
   * dequeued entries are distinct states in order of path length, each
   * reached by its path.
   */
  lemma EmptyAt(start: Grid, goal: Grid, k: nat, trace: seq<Node>)
    requires (Blank in start || start == goal) && Run(start, goal, k).frontier == [] && trace == Run(start, goal, k).trace
    ensures start != goal
    ensures forall q :: Replay(start, q) != Some(goal)
    ensures forall i, j :: 0 <= i < j < |trace| ==> trace[i].grid != trace[j].grid
    ensures forall i, j :: 0 <= i < j < |trace| ==> |trace[i].path| <= |trace[j].path|
    ensures forall i :: 0 <= i < |trace| ==> Replay(start, trace[i].path) == Some(trace[i].grid)
  {
    var c := Run(start, goal, k);
    if start == goal {
      RunAtGoal(start, k);
    } else {
      RunInvariant(start, goal, k);
      assert GridsOf(c.frontier) == {};
      Unreachable(c.visited, start, goal);
    }
  }

  /** The variables visited, frontier and nodesExpanded of bfs hold the corresponding parts of c. */
  ghost predicate Mirrors(visited: set<Grid>, frontier: seq<Node>, nodesExpanded: nat, c: Config) {
    c.visited == visited && c.frontier == frontier && c.nodesExpanded == nodesExpanded
  }

  /**
   * The loop over get_children(node) in bfs: every child not yet visited is
   * marked visited and put at the back of the queue with node's path
   * extended by its move.
   */
  method EnqueueChildren(node: Node, children: seq<(Move, Grid)>, visited: set<Grid>, frontier: seq<Node>, ghost c: Config)
    returns (visited': set<Grid>, frontier': seq<Node>)
    requires c.visited == visited && c.frontier == frontier
    ensures Enqueue(node, children, c).visited == visited' && Enqueue(node, children, c).frontier == frontier'
  {
    visited', frontier' := visited, frontier;
    for i := 0 to |children|
      invariant Enqueue(node, children[..i], c).visited == visited' && Enqueue(node, children[..i], c).frontier == frontier'
    {
      var (m, child) := children[i];
      assert children[..i + 1][..i] == children[..i];
      if child !in visited' {
        visited' := visited' + {child};
        frontier' := frontier' + [Node(child, node.path + [m])];
      }
    }
    assert children[..|children|] == children;
  }

  /**
   * One round of the loop of bfs once it knows the head is not the goal: the
   * head is dequeued and counted and its children are enqueued.  The round
   * takes the variables of k rounds of the model to those of k + 1, and it
   * visits more states or shortens the queue.
   */
  method Expand(ghost start: Grid, goal: Grid, ghost k: nat, visited: set<Grid>, frontier: seq<Node>, nodesExpanded: nat, ghost c: Config)
    returns (visited': set<Grid>, frontier': seq<Node>, nodesExpanded': nat, ghost c': Config)
    requires Blank in start && frontier != [] && frontier[0].grid != goal
    requires c == Run(start, goal, k) && Mirrors(visited, frontier, nodesExpanded, c)
    ensures c' == Run(start, goal, k + 1) && Mirrors(visited', frontier', nodesExpanded', c')
    ensures |visited'| <= |Arrangements(start)|
    ensures |visited| < |visited'| || (visited' == visited && |frontier'| < |frontier|)
  {
    RunProgress(start, goal, k);
    c' := Run(start, goal, k + 1);
    var node := frontier[0];
    nodesExpanded' := nodesExpanded + 1;
    var children := GetChildren(node.grid);
    assert c' == Enqueue(node, children, Pop(c));
    EnqueueFrame(node, children, Pop(c));
    visited', frontier' := EnqueueChildren(node, children, visited, frontier[1..], Pop(c));
    if visited' != visited {
      StrictSubsetCard(visited, visited');
    }
  }

  /**
   * The loop of bfs: rounds are run until the queue is empty or its head is
   * the goal.  The variables it stops with are those of some number k of
   * rounds of the model.
   */
  method Explore(start: Grid, goal: Grid) returns (visited: set<Grid>, frontier: seq<Node>, nodesExpanded: nat, ghost c: Config, ghost k: nat)
    requires Blank in start || start == goal
    ensures c == Run(start, goal, k) && Mirrors(visited, frontier, nodesExpanded, c)
    ensures frontier == [] || frontier[0].grid == goal
  {
    visited, frontier, nodesExpanded := {start}, [Node(start, [])], 0;
    c, k := Initial(start), 0;
    ArrangedBound(start, visited);

    while frontier != [] && frontier[0].grid != goal
      invariant c == Run(start, goal, k) && Mirrors(visited, frontier, nodesExpanded, c)
      invariant |visited| <= |Arrangements(start)|
      invariant Blank in start || c == Initial(start)
      decreases |Arrangements(start)| - |visited|, |frontier|
    {
      visited, frontier, nodesExpanded, c := Expand(start, goal, k, visited, frontier, nodesExpanded, c);
      k := k + 1;
    }
  }

  /**
   * What bfs returns once the loop halts after k rounds: NotFound with the
   * dequeued entries when the queue is empty, otherwise the head's path, the
   * count including the head, and the dequeued entries followed by the head.
   */
  lemma Outcome(start: Grid, goal: Grid, k: nat, c: Config, r: SearchResult, trace: seq<Node>)
    requires (Blank in start || start == goal) && c == Run(start, goal, k) && Halted(goal, c)
    requires c.frontier == [] ==> r == NotFound && trace == c.trace
    requires c.frontier != [] ==> r == Found(c.frontier[0].path, c.nodesExpanded + 1) && trace == c.trace + [c.frontier[0]]
    ensures Halted(goal, Run(start, goal, k))
    ensures Run(start, goal, k).frontier == [] ==> r == NotFound && trace == Run(start, goal, k).trace
    ensures Run(start, goal, k).frontier != [] ==>
      && r == Found(Run(start, goal, k).frontier[0].path, Run(start, goal, k).nodesExpanded + 1)
      && trace == Run(start, goal, k).trace + [Run(start, goal, k).frontier[0]]
    ensures start == goal ==> r == Found([], 1)
    ensures r.Found? ==> Replay(start, r.path) == Some(goal)
    ensures r.Found? ==> forall q :: Replay(start, q) == Some(goal) ==> |r.path| <= |q|
    ensures r.NotFound? <==> forall q :: Replay(start, q) != Some(goal)
    ensures r.Found? ==> 1 <= r.nodesExpanded == |trace| <= |Arrangements(start)|
    ensures r.Found? ==> trace[|trace| - 1] == Node(goal, r.path)
    ensures forall i, j :: 0 <= i < j < |trace| ==> trace[i].grid != trace[j].grid
    ensures forall i, j :: 0 <= i < j < |trace| ==> |trace[i].path| <= |trace[j].path|
    ensures forall i :: 0 <= i < |trace| ==> Replay(start, trace[i].path) == Some(trace[i].grid)
  {
    if c.frontier == [] {
      EmptyAt(start, goal, k, trace);
    } else {
      FoundAt(start, goal, k, c.frontier[0], c.nodesExpanded + 1, trace);
    }
  }

  /**
   * bfs: returns the path and the number of dequeued states on success, and
   * NotFound once the queue is empty.  The result is the one the loop of the
   * model stops with after k rounds: NotFound with an empty queue, otherwise
   * the head's path and the count including the head.  The path replays from
   * start to the goal and is a shortest one; NotFound is returned exactly
   * when no path reaches the goal.  The ghost trace lists the dequeued
   * entries in order: no state is dequeued twice, their path lengths never
   * decrease, and each path replays to its state.
   */
  method Bfs(start: Grid, goal: Grid) returns (r: SearchResult, ghost trace: seq<Node>, ghost k: nat)
    requires Blank in start || start == goal
    ensures Halted(goal, Run(start, goal, k))
    ensures Run(start, goal, k).frontier == [] ==> r == NotFound && trace == Run(start, goal, k).trace
    ensures Run(start, goal, k).frontier != [] ==>
      && r == Found(Run(start, goal, k).frontier[0].path, Run(start, goal, k).nodesExpanded + 1)
      && trace == Run(start, goal, k).trace + [Run(start, goal, k).frontier[0]]
    ensures start == goal ==> r == Found([], 1)
    ensures r.Found? ==> Replay(start, r.path) == Some(goal)
    ensures r.Found? ==> forall q :: Replay(start, q) == Some(goal) ==> |r.path| <= |q|
    ensures r.NotFound? <==> forall q :: Replay(start, q) != Some(goal)
    ensures r.Found? ==> 1 <= r.nodesExpanded == |trace| <= |Arrangements(start)|
    ensures r.Found? ==> trace[|trace| - 1] == Node(goal, r.path)
    ensures forall i, j :: 0 <= i < j < |trace| ==> trace[i].grid != trace[j].grid
    ensures forall i, j :: 0 <= i < j < |trace| ==> |trace[i].path| <= |trace[j].path|
    ensures forall i :: 0 <= i < |trace| ==> Replay(start, trace[i].path) == Some(trace[i].grid)
  {
    var visited, frontier, nodesExpanded;
    ghost var c;
    visited, frontier, nodesExpanded, c, k := Explore(start, goal);
    if frontier == [] {
      r, trace := NotFound, c.trace;
    } else {
      r, trace := Found(frontier[0].path, nodesExpanded + 1), c.trace + [frontier[0]];
    }
    Outcome(start, goal, k, c, r, trace);
  }
}
