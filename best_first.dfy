/**
 * Greedy best-first search (best_first_search in puzzle-8.py).
 *
 * It works like bfs, but the frontier is a priority queue of (priority,
 * grid, path) entries.  The priority of an entry is the heuristic's value
 * for its state and the goal.  Each round takes the least entry in Python's
 * tuple order (module Ranking) and checks it against the goal.  Then it
 * queues, with their priorities, the children that are not yet visited.  The
 * queue is modelled as the sequence of its entries in the order they were
 * put; taking an entry out removes it there.
 */
module BestFirst {
  import opened Wrappers
  import opened Board
  import opened Exploration
  import opened Ranking

  /** The states held by the entries of a queue. */
  ghost function Grids(f: seq<Ranked>): set<Grid> {
    set i | 0 <= i < |f| :: f[i].grid
  }

  /** No state is held by two entries. */
  ghost predicate Distinct(f: seq<Ranked>) {
    forall i, j :: 0 <= i < j < |f| ==> f[i].grid != f[j].grid
  }

  /** Every entry's path leads from start to its state, and its priority is the heuristic's value for that state. */
  ghost predicate Sound(start: Grid, goal: Grid, h: (Grid, Grid) -> int, f: seq<Ranked>) {
    forall i :: 0 <= i < |f| ==> Replay(start, f[i].path) == Some(f[i].grid) && f[i].priority == h(f[i].grid, goal)
  }

  /**
   * The queue of best_first_search between two rounds: the visited states are
   * the dequeued ones and the queued ones, no state is queued twice, and
   * every entry is sound.
   */
  ghost predicate Pool(start: Grid, goal: Grid, h: (Grid, Grid) -> int, expanded: set<Grid>, visited: set<Grid>, f: seq<Ranked>) {
    && start in visited && AllArranged(start, visited)
    && expanded !! Grids(f) && visited == expanded + Grids(f)
    && Distinct(f) && Sound(start, goal, h, f)
  }

  /** The dequeued entries: one per expanded state, no state twice, each sound. */
  ghost predicate Traced(start: Grid, goal: Grid, h: (Grid, Grid) -> int, expanded: set<Grid>, trace: seq<Ranked>) {
    && |trace| == |expanded|
    && (forall i :: 0 <= i < |trace| ==> trace[i].grid in expanded)
    && (forall i, j :: 0 <= i < j < |trace| ==> trace[i].grid != trace[j].grid)
    && Sound(start, goal, h, trace)
  }

  lemma GridsAppend(f: seq<Ranked>, n: Ranked)
    ensures Grids(f + [n]) == Grids(f) + {n.grid}
  {
    var g := f + [n];
    forall x | x in Grids(g) ensures x in Grids(f) + {n.grid} {
      var i :| 0 <= i < |g| && g[i].grid == x;
      if i < |f| { assert f[i] == g[i]; }
    }
    forall x | x in Grids(f) ensures x in Grids(g) {
      var i :| 0 <= i < |f| && f[i].grid == x;
      assert g[i] == f[i];
    }
    assert g[|f|] == n;
  }

  /** Taking entry i out of a queue whose states are distinct removes exactly that entry's state. */
  lemma GridsRemove(f: seq<Ranked>, i: nat)
    requires i < |f| && Distinct(f)
    ensures Grids(Remove(f, i)) == Grids(f) - {f[i].grid}
    ensures Distinct(Remove(f, i))
  {
    var r := Remove(f, i);
    forall x | x in Grids(r) ensures x in Grids(f) - {f[i].grid} {
      var j :| 0 <= j < |r| && r[j].grid == x;
    }
    forall x | x in Grids(f) - {f[i].grid} ensures x in Grids(r) {
      var j :| 0 <= j < |f| && f[j].grid == x;
      assert r[if j < i then j else j - 1] == f[j];
    }
  }

  lemma SoundRemove(start: Grid, goal: Grid, h: (Grid, Grid) -> int, f: seq<Ranked>, i: nat)
    requires i < |f| && Sound(start, goal, h, f)
    ensures Sound(start, goal, h, Remove(f, i))
  {
  }

  lemma SoundAppend(start: Grid, goal: Grid, h: (Grid, Grid) -> int, f: seq<Ranked>, n: Ranked)
    requires Sound(start, goal, h, f)
    requires Replay(start, n.path) == Some(n.grid) && n.priority == h(n.grid, goal)
    ensures Sound(start, goal, h, f + [n])
  {
    var g := f + [n];
    assert forall i :: 0 <= i < |f| ==> g[i] == f[i];
  }

  /**
   * Taking the least entry out of the queue keeps the queue's properties; the
   * entry is sound and its state is visited and not yet expanded.
   */
  lemma DequeuePool(start: Grid, goal: Grid, h: (Grid, Grid) -> int, expanded: set<Grid>, visited: set<Grid>, f: seq<Ranked>)
    requires Pool(start, goal, h, expanded, visited, f) && f != []
    ensures f[Least(f)].grid in visited && f[Least(f)].grid !in expanded
    ensures Replay(start, f[Least(f)].path) == Some(f[Least(f)].grid) && f[Least(f)].priority == h(f[Least(f)].grid, goal)
    ensures Pool(start, goal, h, expanded + {f[Least(f)].grid}, visited, Remove(f, Least(f)))
  {
    var i := Least(f);
    GridsRemove(f, i);
    SoundRemove(start, goal, h, f, i);
    assert f[i].grid in Grids(f);
  }

  /** Recording the dequeued entry extends the trace. */
  lemma DequeueTraced(start: Grid, goal: Grid, h: (Grid, Grid) -> int, expanded: set<Grid>, trace: seq<Ranked>, n: Ranked)
    requires Traced(start, goal, h, expanded, trace) && n.grid !in expanded
    requires Replay(start, n.path) == Some(n.grid) && n.priority == h(n.grid, goal)
    ensures Traced(start, goal, h, expanded + {n.grid}, trace + [n])
  {
    var t := trace + [n];
    assert forall i :: 0 <= i < |trace| ==> t[i] == trace[i];
    assert t[|trace|] == n;
    SoundAppend(start, goal, h, trace, n);
  }

  /** Putting an entry for a state not yet visited at the back of the queue keeps the queue free of repeats. */
  lemma QueueChild(expanded: set<Grid>, visited: set<Grid>, f: seq<Ranked>, n: Ranked)
    requires expanded !! Grids(f) && visited == expanded + Grids(f) && Distinct(f) && n.grid !in visited
    ensures expanded !! Grids(f + [n]) && visited + {n.grid} == expanded + Grids(f + [n])
    ensures Distinct(f + [n])
  {
    var g := f + [n];
    GridsAppend(f, n);
    assert forall i :: 0 <= i < |f| ==> g[i] == f[i];
    assert g[|f|] == n;
    forall i | 0 <= i < |f|
      ensures f[i].grid != n.grid
    {
      assert f[i].grid in Grids(f);
    }
  }

  /** Queuing a new child of node, with its priority, keeps the queue's properties. */
  lemma EnqueueOne(start: Grid, goal: Grid, h: (Grid, Grid) -> int, expanded: set<Grid>, visited: set<Grid>, f: seq<Ranked>,
                   node: Ranked, m: Move, child: Grid)
    requires Pool(start, goal, h, expanded, visited, f)
    requires node.grid in visited && Replay(start, node.path) == Some(node.grid) && Blank in node.grid
    requires Slide(node.grid, m) == Some(child) && child !in visited
    ensures Pool(start, goal, h, expanded, visited + {child}, f + [Ranked(h(child, goal), child, node.path + [m])])
  {
    var n := Ranked(h(child, goal), child, node.path + [m]);
    StepStaysArranged(start, node.grid, m);
    ReplaySnoc(start, node.path, m);
    SoundAppend(start, goal, h, f, n);
    QueueChild(expanded, visited, f, n);
  }

  /**
   * The variables of best_first_search between two rounds of its loop: the
   * visited set, the queue and the count of dequeued states, together with
   * the dequeued states and the dequeued entries in order, which the proof
   * keeps alongside.
   */
  datatype Config = Config(visited: set<Grid>, frontier: seq<Ranked>, nodesExpanded: nat,
                           expanded: set<Grid>, trace: seq<Ranked>)

  /** The variables before the first round: only start is visited and queued, with its priority and the empty path. */
  ghost function Initial(start: Grid, goal: Grid, h: (Grid, Grid) -> int): Config {
    Config({start}, [Ranked(h(start, goal), start, [])], 0, {}, [])
  }

  /** The entry the next round takes out of the queue: its least one. */
  ghost function Head(c: Config): Ranked
    requires c.frontier != []
  {
    c.frontier[Least(c.frontier)]
  }

  /** Taking the least entry out of the queue and counting it. */
  ghost function Pop(c: Config): Config
    requires c.frontier != []
  {
    c.(frontier := Remove(c.frontier, Least(c.frontier)), nodesExpanded := c.nodesExpanded + 1,
       expanded := c.expanded + {Head(c).grid}, trace := c.trace + [Head(c)])
  }

  /**
   * The loop over the children entries cs of node, in order: a child not yet
   * visited is marked visited and queued with its priority and the node's
   * path extended by its move; a visited one is skipped.
   */
  ghost function Enqueue(goal: Grid, h: (Grid, Grid) -> int, node: Ranked, cs: seq<(Move, Grid)>, c: Config): Config
    decreases |cs|
  {
    if cs == [] then c
    else
      var d := Enqueue(goal, h, node, cs[..|cs| - 1], c);
      var (m, child) := cs[|cs| - 1];
      if child in d.visited then d
      else d.(visited := d.visited + {child},
              frontier := d.frontier + [Ranked(h(child, goal), child, node.path + [m])])
  }

  /** The loop over the children entries changes only the visited set and the queue. */
  lemma {:induction false} EnqueueFrame(goal: Grid, h: (Grid, Grid) -> int, node: Ranked, cs: seq<(Move, Grid)>, c: Config)
    ensures Enqueue(goal, h, node, cs, c).nodesExpanded == c.nodesExpanded
    ensures Enqueue(goal, h, node, cs, c).expanded == c.expanded && Enqueue(goal, h, node, cs, c).trace == c.trace
    decreases |cs|
  {
    if cs != [] {
      EnqueueFrame(goal, h, node, cs[..|cs| - 1], c);
    }
  }

  /**
   * The loop over the children entries visits every child, only adds to the
   * visited set, and leaves the queue alone when it adds nothing.
   */
  lemma {:induction false} EnqueueVisits(goal: Grid, h: (Grid, Grid) -> int, node: Ranked, cs: seq<(Move, Grid)>, c: Config)
    ensures c.visited <= Enqueue(goal, h, node, cs, c).visited
    ensures Enqueue(goal, h, node, cs, c).visited == c.visited ==> Enqueue(goal, h, node, cs, c).frontier == c.frontier
    ensures forall j :: 0 <= j < |cs| ==> cs[j].1 in Enqueue(goal, h, node, cs, c).visited
    decreases |cs|
  {
    if cs != [] {
      var init := cs[..|cs| - 1];
      EnqueueVisits(goal, h, node, init, c);
      assert forall j :: 0 <= j < |init| ==> init[j] == cs[j];
    }
  }

  /** The loop over the children entries of node keeps the queue's properties. */
  lemma {:induction false} EnqueueAll(start: Grid, goal: Grid, h: (Grid, Grid) -> int, node: Ranked, cs: seq<(Move, Grid)>, c: Config)
    requires Pool(start, goal, h, c.expanded, c.visited, c.frontier)
    requires node.grid in c.visited && Replay(start, node.path) == Some(node.grid) && Blank in node.grid
    requires forall j :: 0 <= j < |cs| ==> Slide(node.grid, cs[j].0) == Some(cs[j].1)
    ensures Pool(start, goal, h, c.expanded, Enqueue(goal, h, node, cs, c).visited, Enqueue(goal, h, node, cs, c).frontier)
    decreases |cs|
  {
    if cs != [] {
      var init := cs[..|cs| - 1];
      assert forall j :: 0 <= j < |init| ==> init[j] == cs[j];
      EnqueueAll(start, goal, h, node, init, c);
      EnqueueVisits(goal, h, node, init, c);
      var d := Enqueue(goal, h, node, init, c);
      var (m, child) := cs[|cs| - 1];
      if child !in d.visited {
        EnqueueOne(start, goal, h, c.expanded, d.visited, d.frontier, node, m, child);
      }
    }
  }

  /** The loop stops: the queue is empty, or its least entry is the goal and is returned. */
  ghost predicate Halted(goal: Grid, c: Config) {
    c.frontier == [] || Head(c).grid == goal
  }

  /**
   * One round of the loop: the least entry is dequeued and its children are
   * enqueued.  A halted loop stays as it is; so does one whose least entry
   * has no blank, which never happens (RoundPool).
   */
  ghost function Round(goal: Grid, h: (Grid, Grid) -> int, c: Config): Config {
    if Halted(goal, c) || Blank !in Head(c).grid then c
    else Enqueue(goal, h, Head(c), Children(Head(c).grid), Pop(c))
  }

  /** The variables after k rounds. */
  ghost function Run(start: Grid, goal: Grid, h: (Grid, Grid) -> int, k: nat): Config {
    if k == 0 then Initial(start, goal, h) else Round(goal, h, Run(start, goal, h, k - 1))
  }

  /**
   * What holds between two rounds: the queue's properties, a bound on the
   * visited states, the goal not yet dequeued, the children of every
   * dequeued state visited, and the dequeued entries in order.
   */
  ghost predicate Invariant(start: Grid, goal: Grid, h: (Grid, Grid) -> int, c: Config) {
    && Pool(start, goal, h, c.expanded, c.visited, c.frontier)
    && |c.visited| <= |Arrangements(start)|
    && goal !in c.expanded && Closed(c.expanded, c.visited)
  }

  /** The count and the dequeued entries in order, one per expanded state. */
  ghost predicate Log(start: Grid, goal: Grid, h: (Grid, Grid) -> int, c: Config) {
    c.nodesExpanded == |c.trace| && Traced(start, goal, h, c.expanded, c.trace)
  }

  lemma InitialPool(start: Grid, goal: Grid, h: (Grid, Grid) -> int)
    ensures Pool(start, goal, h, {}, {start}, [Ranked(h(start, goal), start, [])])
  {
    var n := Ranked(h(start, goal), start, []);
    assert AllArranged(start, {start});
    assert Grids([n]) == {start} by {
      GridsAppend([], n);
      assert [] + [n] == [n];
    }
    assert Replay(start, []) == Some(start);
  }

  lemma InitialInvariant(start: Grid, goal: Grid, h: (Grid, Grid) -> int)
    ensures Invariant(start, goal, h, Initial(start, goal, h))
    ensures Log(start, goal, h, Initial(start, goal, h))
  {
    InitialPool(start, goal, h);
    assert AllArranged(start, {start});
    ArrangedBound(start, {start});
  }

  /** A round that does not halt counts the least entry, marks its state expanded and appends it to the trace. */
  lemma RoundFrame(goal: Grid, h: (Grid, Grid) -> int, c: Config)
    requires !Halted(goal, c) && Blank in Head(c).grid
    ensures Round(goal, h, c).nodesExpanded == c.nodesExpanded + 1
    ensures Round(goal, h, c).expanded == c.expanded + {Head(c).grid}
    ensures Round(goal, h, c).trace == c.trace + [Head(c)]
  {
    EnqueueFrame(goal, h, Head(c), Children(Head(c).grid), Pop(c));
  }

  /** The queue's properties survive a round. */
  lemma RoundPool(start: Grid, goal: Grid, h: (Grid, Grid) -> int, c: Config)
    requires Invariant(start, goal, h, c) && !Halted(goal, c) && Blank in start
    ensures Blank in Head(c).grid
    ensures Pool(start, goal, h, Round(goal, h, c).expanded, Round(goal, h, c).visited, Round(goal, h, c).frontier)
    ensures Closed(Round(goal, h, c).expanded, Round(goal, h, c).visited)
    ensures Round(goal, h, c) == Enqueue(goal, h, Head(c), Children(Head(c).grid), Pop(c))
    ensures c.visited <= Round(goal, h, c).visited
    ensures Round(goal, h, c).visited == c.visited ==> |Round(goal, h, c).frontier| < |c.frontier|
  {
    var node, p := Head(c), Pop(c);
    DequeuePool(start, goal, h, c.expanded, c.visited, c.frontier);
    assert AllArranged(start, c.visited);
    ArrangedHasBlank(start, node.grid);
    ChildrenSpec(node.grid);
    EnqueueAll(start, goal, h, node, Children(node.grid), p);
    EnqueueVisits(goal, h, node, Children(node.grid), p);
    RoundFrame(goal, h, c);
    var d := Round(goal, h, c);
    forall m | Step(node.grid, m).Some?
      ensures Step(node.grid, m).value in d.visited
    {
      var j :| 0 <= j < |Children(node.grid)| && Children(node.grid)[j].0 == m;
    }
    ClosedGrow(c.expanded, c.visited, d.visited, node.grid);
  }

  /** A round keeps the rest of the invariant. */
  lemma RoundInvariant(start: Grid, goal: Grid, h: (Grid, Grid) -> int, c: Config)
    requires Invariant(start, goal, h, c) && !Halted(goal, c) && Blank in start
    ensures Invariant(start, goal, h, Round(goal, h, c))
  {
    RoundPool(start, goal, h, c);
    RoundFrame(goal, h, c);
    DequeuePool(start, goal, h, c.expanded, c.visited, c.frontier);
    var d := Round(goal, h, c);
    assert AllArranged(start, d.visited);
    ArrangedBound(start, d.visited);
  }

  /** A round appends the dequeued entry to the trace and counts it. */
  lemma RoundLog(start: Grid, goal: Grid, h: (Grid, Grid) -> int, c: Config)
    requires Invariant(start, goal, h, c) && Log(start, goal, h, c) && !Halted(goal, c) && Blank in start
    ensures Log(start, goal, h, Round(goal, h, c))
  {
    RoundPool(start, goal, h, c);
    RoundFrame(goal, h, c);
    DequeuePool(start, goal, h, c.expanded, c.visited, c.frontier);
    DequeueTraced(start, goal, h, c.expanded, c.trace, Head(c));
  }

  /**
   * The variables after no rounds satisfy the invariant and the log, and a
   * round ending with the variables after k rounds keeps them.
   */
  lemma RunStep(start: Grid, goal: Grid, h: (Grid, Grid) -> int, k: nat)
    requires Blank in start
    requires 0 < k ==> Invariant(start, goal, h, Run(start, goal, h, k - 1)) && Log(start, goal, h, Run(start, goal, h, k - 1))
    ensures Invariant(start, goal, h, Run(start, goal, h, k)) && Log(start, goal, h, Run(start, goal, h, k))
  {
    if k == 0 {
      InitialInvariant(start, goal, h);
    } else {
      var c := Run(start, goal, h, k - 1);
      if !Halted(goal, c) {
        RoundInvariant(start, goal, h, c);
        RoundLog(start, goal, h, c);
      }
    }
  }

  /** Every number of rounds leaves the variables satisfying the invariant and the log. */
  lemma RunInvariant(start: Grid, goal: Grid, h: (Grid, Grid) -> int, k: nat)
    requires Blank in start
    ensures Invariant(start, goal, h, Run(start, goal, h, k)) && Log(start, goal, h, Run(start, goal, h, k))
  {
    RunStep(start, goal, h, 0);
    var i := 0;
    while i < k
      invariant i <= k && Invariant(start, goal, h, Run(start, goal, h, i)) && Log(start, goal, h, Run(start, goal, h, i))
    {
      RunStep(start, goal, h, i + 1);
      i := i + 1;
    }
  }

  /**
   * The entry every round takes out comes before every other queued entry in
   * the tuple order; since no state is queued twice, no two entries are
   * equal, so the entry a heap returns is this one.
   */
  lemma RunTakesLeast(start: Grid, goal: Grid, h: (Grid, Grid) -> int, k: nat)
    requires Blank in start && Run(start, goal, h, k).frontier != []
    ensures forall j :: 0 <= j < |Run(start, goal, h, k).frontier| && j != Least(Run(start, goal, h, k).frontier) ==>
      Less(Head(Run(start, goal, h, k)), Run(start, goal, h, k).frontier[j])
  {
    var f := Run(start, goal, h, k).frontier;
    RunInvariant(start, goal, h, k);
    forall j, l | 0 <= j < l < |f|
      ensures f[j] != f[l]
    {
      assert f[j].grid != f[l].grid;
    }
    LeastUnique(f, 0);
  }

  /** A round that does not halt visits more states, or leaves the visited set alone and shortens the queue. */
  lemma RunProgress(start: Grid, goal: Grid, h: (Grid, Grid) -> int, k: nat)
    requires Blank in start && !Halted(goal, Run(start, goal, h, k))
    ensures Blank in Head(Run(start, goal, h, k)).grid
    ensures Run(start, goal, h, k + 1) == Enqueue(goal, h, Head(Run(start, goal, h, k)), Children(Head(Run(start, goal, h, k)).grid), Pop(Run(start, goal, h, k)))
    ensures Run(start, goal, h, k).visited <= Run(start, goal, h, k + 1).visited
    ensures Run(start, goal, h, k + 1).visited == Run(start, goal, h, k).visited ==> |Run(start, goal, h, k + 1).frontier| < |Run(start, goal, h, k).frontier|
    ensures |Run(start, goal, h, k + 1).visited| <= |Arrangements(start)|
  {
    RunInvariant(start, goal, h, k);
    RoundPool(start, goal, h, Run(start, goal, h, k));
    RunStep(start, goal, h, k + 1);
  }

  /** With start itself the goal, the loop halts at once. */
  lemma RunAtGoal(start: Grid, h: (Grid, Grid) -> int, k: nat)
    ensures Run(start, start, h, k) == Initial(start, start, h)
  {
    assert Halted(start, Initial(start, start, h));
    var i := 0;
    while i < k
      invariant i <= k && Run(start, start, h, i) == Initial(start, start, h)
    {
      i := i + 1;
    }
  }

  /** The invariant and the log also hold when start has no blank but is the goal, since then the loop never moves. */
  lemma InvariantAt(start: Grid, goal: Grid, h: (Grid, Grid) -> int, k: nat)
    requires Blank in start || start == goal
    ensures Invariant(start, goal, h, Run(start, goal, h, k)) && Log(start, goal, h, Run(start, goal, h, k))
  {
    if Blank in start {
      RunInvariant(start, goal, h, k);
    } else {
      RunAtGoal(start, h, k);
      InitialInvariant(start, goal, h);
    }
  }

  /**
   * When the least entry is the goal, best_first_search returns its path and
   * the count: the path leads from start to the goal, the count is the
   * number of dequeued states, and the dequeued entries are distinct states
   * each reached by its path and ranked by the heuristic.
   */
  lemma FoundAt(start: Grid, goal: Grid, h: (Grid, Grid) -> int, k: nat, n: Ranked, count: nat, trace: seq<Ranked>)
    requires (Blank in start || start == goal) && Run(start, goal, h, k).frontier != [] && n == Head(Run(start, goal, h, k)) && n.grid == goal
    requires count == Run(start, goal, h, k).nodesExpanded + 1 && trace == Run(start, goal, h, k).trace + [n]
    ensures start == goal ==> n.path == [] && count == 1
    ensures Replay(start, n.path) == Some(goal)
    ensures 1 <= count == |trace| <= |Arrangements(start)|
    ensures trace[|trace| - 1] == Ranked(h(goal, goal), goal, n.path)
    ensures forall i, j :: 0 <= i < j < |trace| ==> trace[i].grid != trace[j].grid
    ensures forall i :: 0 <= i < |trace| ==> Replay(start, trace[i].path) == Some(trace[i].grid)
    ensures forall i :: 0 <= i < |trace| ==> trace[i].priority == h(trace[i].grid, goal)
  {
    if start == goal {
      RunAtGoal(start, h, k);
    }
    InvariantAt(start, goal, h, k);
    FoundIn(start, goal, h, Run(start, goal, h, k), n, count, trace);
  }

  /** The properties of FoundAt, for any variables that satisfy the invariant and the log. */
  lemma FoundIn(start: Grid, goal: Grid, h: (Grid, Grid) -> int, c: Config, n: Ranked, count: nat, trace: seq<Ranked>)
    requires Invariant(start, goal, h, c) && Log(start, goal, h, c) && c.frontier != [] && n == Head(c) && n.grid == goal
    requires count == c.nodesExpanded + 1 && trace == c.trace + [n]
    ensures Replay(start, n.path) == Some(goal)
    ensures 1 <= count == |trace| <= |Arrangements(start)|
    ensures trace[|trace| - 1] == Ranked(h(goal, goal), goal, n.path)
    ensures forall i, j :: 0 <= i < j < |trace| ==> trace[i].grid != trace[j].grid
    ensures forall i :: 0 <= i < |trace| ==> Replay(start, trace[i].path) == Some(trace[i].grid)
    ensures forall i :: 0 <= i < |trace| ==> trace[i].priority == h(trace[i].grid, goal)
  {
    DequeuePool(start, goal, h, c.expanded, c.visited, c.frontier);
    DequeueTraced(start, goal, h, c.expanded, c.trace, n);
    SubsetCard(c.expanded + {n.grid}, c.visited);
    assert trace[|trace| - 1] == n;
  }

  /**
   * When the queue runs empty, no path from start reaches the goal, and the
   * dequeued entries are distinct states each reached by its path and
   * ranked by the heuristic.
   */
  lemma EmptyAt(start: Grid, goal: Grid, h: (Grid, Grid) -> int, k: nat, trace: seq<Ranked>)
    requires (Blank in start || start == goal) && Run(start, goal, h, k).frontier == [] && trace == Run(start, goal, h, k).trace
    ensures start != goal
    ensures forall q :: Replay(start, q) != Some(goal)
    ensures forall i, j :: 0 <= i < j < |trace| ==> trace[i].grid != trace[j].grid
    ensures forall i :: 0 <= i < |trace| ==> Replay(start, trace[i].path) == Some(trace[i].grid)
    ensures forall i :: 0 <= i < |trace| ==> trace[i].priority == h(trace[i].grid, goal)
  {
    var c := Run(start, goal, h, k);
    if start == goal {
      RunAtGoal(start, h, k);
    } else {
      RunInvariant(start, goal, h, k);
      assert Grids(c.frontier) == {};
      Unreachable(c.visited, start, goal);
    }
  }

  /** Entry j of t is the least entry after j rounds. */
  ghost predicate TakenAt(start: Grid, goal: Grid, h: (Grid, Grid) -> int, t: seq<Ranked>, j: nat) {
    j < |t| && Run(start, goal, h, j).frontier != [] && t[j] == Head(Run(start, goal, h, j))
  }

  /** Appending the least entry after |t| rounds to a trace of least entries gives one again. */
  lemma TakenExtend(start: Grid, goal: Grid, h: (Grid, Grid) -> int, t: seq<Ranked>, x: Ranked, u: seq<Ranked>)
    requires forall j: nat :: j < |t| ==> TakenAt(start, goal, h, t, j)
    requires Run(start, goal, h, |t|).frontier != [] && x == Head(Run(start, goal, h, |t|)) && u == t + [x]
    ensures forall j: nat :: j < |u| ==> TakenAt(start, goal, h, u, j)
  {
    forall j: nat | j < |u|
      ensures TakenAt(start, goal, h, u, j)
    {
      if j < |t| {
        assert TakenAt(start, goal, h, t, j);
        assert u[j] == t[j];
      } else {
        assert u[j] == x;
      }
    }
  }

  /**
   * The rounds that change the variables come first and each appends the
   * entry it takes out to the trace; once a round changes nothing, none
   * does.  So the j-th dequeued entry is the least entry after j rounds.
   */
  ghost predicate Dequeues(start: Grid, goal: Grid, h: (Grid, Grid) -> int, k: nat) {
    var c := Run(start, goal, h, k);
    && |c.trace| <= k
    && (|c.trace| < k ==> Round(goal, h, c) == c)
    && Run(start, goal, h, |c.trace|) == c
    && forall j: nat :: j < |c.trace| ==> TakenAt(start, goal, h, c.trace, j)
  }

  /** A round keeps the trace the sequence of least entries. */
  lemma TraceStep(start: Grid, goal: Grid, h: (Grid, Grid) -> int, k: nat)
    requires 0 < k ==> Dequeues(start, goal, h, k - 1)
    ensures Dequeues(start, goal, h, k)
  {
    if k > 0 {
      var c := Run(start, goal, h, k - 1);
      if !Halted(goal, c) && Blank in Head(c).grid {
        RoundFrame(goal, h, c);
        assert |c.trace| == k - 1;
        TakenExtend(start, goal, h, c.trace, Head(c), Run(start, goal, h, k).trace);
      }
    }
  }

  lemma RunTrace(start: Grid, goal: Grid, h: (Grid, Grid) -> int, k: nat)
    ensures Dequeues(start, goal, h, k)
  {
    TraceStep(start, goal, h, 0);
    var i := 0;
    while i < k
      invariant i <= k && Dequeues(start, goal, h, i)
    {
      TraceStep(start, goal, h, i + 1);
      i := i + 1;
    }
  }

  /** The entries best_first_search dequeues, in order, are the least entries after 0, 1, 2, ... rounds. */
  lemma DequeuedHeads(start: Grid, goal: Grid, h: (Grid, Grid) -> int, k: nat, trace: seq<Ranked>)
    requires Halted(goal, Run(start, goal, h, k))
    requires Run(start, goal, h, k).frontier == [] ==> trace == Run(start, goal, h, k).trace
    requires Run(start, goal, h, k).frontier != [] ==> trace == Run(start, goal, h, k).trace + [Head(Run(start, goal, h, k))]
    ensures forall j: nat :: j < |trace| ==> TakenAt(start, goal, h, trace, j)
  {
    RunTrace(start, goal, h, k);
    var c := Run(start, goal, h, k);
    if c.frontier != [] {
      TakenExtend(start, goal, h, c.trace, Head(c), trace);
    }
  }

  /**
   * Every dequeued entry was queued after as many rounds as precede it, and
   * came before every other entry queued then, in the tuple order.
   */
  lemma DequeuedLeast(start: Grid, goal: Grid, h: (Grid, Grid) -> int, trace: seq<Ranked>)
    requires Blank in start || start == goal
    requires forall j: nat :: j < |trace| ==> TakenAt(start, goal, h, trace, j)
    ensures forall j :: 0 <= j < |trace| ==> trace[j] in Run(start, goal, h, j).frontier
    ensures forall j, e :: 0 <= j < |trace| && e in Run(start, goal, h, j).frontier && e != trace[j] ==> Less(trace[j], e)
  {
    forall j | 0 <= j < |trace|
      ensures trace[j] in Run(start, goal, h, j).frontier
    {
      assert TakenAt(start, goal, h, trace, j);
    }
    forall j, e | 0 <= j < |trace| && e in Run(start, goal, h, j).frontier && e != trace[j]
      ensures Less(trace[j], e)
    {
      var f := Run(start, goal, h, j).frontier;
      var i :| 0 <= i < |f| && f[i] == e;
      assert TakenAt(start, goal, h, trace, j);
      if Blank in start {
        RunTakesLeast(start, goal, h, j);
      } else {
        RunAtGoal(start, h, j);
      }
    }
  }

  /** The variables visited, frontier and nodesExpanded of best_first_search hold the corresponding parts of c. */
  ghost predicate Mirrors(visited: set<Grid>, frontier: seq<Ranked>, nodesExpanded: nat, c: Config) {
    c.visited == visited && c.frontier == frontier && c.nodesExpanded == nodesExpanded
  }

  /**
   * The loop over get_children(node) in best_first_search: every child not
   * yet visited is marked visited and queued with the heuristic's value for
   * it and node's path extended by its move.
   */
  method EnqueueChildren(goal: Grid, h: (Grid, Grid) -> int, node: Ranked, children: seq<(Move, Grid)>,
                         visited: set<Grid>, frontier: seq<Ranked>, ghost c: Config)
    returns (visited': set<Grid>, frontier': seq<Ranked>)
    requires c.visited == visited && c.frontier == frontier
    ensures Enqueue(goal, h, node, children, c).visited == visited' && Enqueue(goal, h, node, children, c).frontier == frontier'
  {
    visited', frontier' := visited, frontier;
    for i := 0 to |children|
      invariant Enqueue(goal, h, node, children[..i], c).visited == visited'
      invariant Enqueue(goal, h, node, children[..i], c).frontier == frontier'
    {
      var (m, child) := children[i];
      assert children[..i + 1][..i] == children[..i];
      if child !in visited' {
        visited' := visited' + {child};
        var priority := h(child, goal);
        frontier' := frontier' + [Ranked(priority, child, node.path + [m])];
      }
    }
    assert children[..|children|] == children;
  }

  /**
   * One round of the loop of best_first_search once it knows the least
   * entry is not the goal: that entry is taken out and counted and its
   * children are queued.  The round takes the variables of k rounds of the
   * model to those of k + 1, and it visits more states or shortens the queue.
   */
  method Expand(ghost start: Grid, goal: Grid, h: (Grid, Grid) -> int, ghost k: nat,
                visited: set<Grid>, frontier: seq<Ranked>, nodesExpanded: nat, ghost c: Config)
    returns (visited': set<Grid>, frontier': seq<Ranked>, nodesExpanded': nat, ghost c': Config)
    requires Blank in start && frontier != [] && frontier[Least(frontier)].grid != goal
    requires c == Run(start, goal, h, k) && Mirrors(visited, frontier, nodesExpanded, c)
    ensures c' == Run(start, goal, h, k + 1) && Mirrors(visited', frontier', nodesExpanded', c')
    ensures |visited'| <= |Arrangements(start)|
    ensures |visited| < |visited'| || (visited' == visited && |frontier'| < |frontier|)
  {
    RunProgress(start, goal, h, k);
    c' := Run(start, goal, h, k + 1);
    var i := Least(frontier);
    var node := frontier[i];
    var rest := Remove(frontier, i);
    nodesExpanded' := nodesExpanded + 1;
    var children := GetChildren(node.grid);
    assert c' == Enqueue(goal, h, node, children, Pop(c));
    EnqueueFrame(goal, h, node, children, Pop(c));
    visited', frontier' := EnqueueChildren(goal, h, node, children, visited, rest, Pop(c));
    if visited' != visited {
      StrictSubsetCard(visited, visited');
    }
  }

  /**
   * The loop of best_first_search: rounds are run until the queue is empty
   * or its least entry is the goal.  The variables it stops with are those
   * of some number k of rounds of the model.
   */
  method Explore(start: Grid, goal: Grid, h: (Grid, Grid) -> int)
    returns (visited: set<Grid>, frontier: seq<Ranked>, nodesExpanded: nat, ghost c: Config, ghost k: nat)
    requires Blank in start || start == goal
    ensures c == Run(start, goal, h, k) && Mirrors(visited, frontier, nodesExpanded, c)
    ensures frontier == [] || frontier[Least(frontier)].grid == goal
  {
    var priority := h(start, goal);
    visited, frontier, nodesExpanded := {start}, [Ranked(priority, start, [])], 0;
    c, k := Initial(start, goal, h), 0;
    ArrangedBound(start, visited);

    while frontier != [] && frontier[Least(frontier)].grid != goal
      invariant c == Run(start, goal, h, k) && Mirrors(visited, frontier, nodesExpanded, c)
      invariant |visited| <= |Arrangements(start)|
      invariant Blank in start || c == Initial(start, goal, h)
      decreases |Arrangements(start)| - |visited|, |frontier|
    {
      visited, frontier, nodesExpanded, c := Expand(start, goal, h, k, visited, frontier, nodesExpanded, c);
      k := k + 1;
    }
  }

  /**
   * What best_first_search returns once the loop halts after k rounds:
   * NotFound with the dequeued entries when the queue is empty, otherwise
   * the least entry's path, the count including it, and the dequeued
   * entries followed by it.
   */
  lemma Outcome(start: Grid, goal: Grid, h: (Grid, Grid) -> int, k: nat, c: Config, r: SearchResult, trace: seq<Ranked>)
    requires (Blank in start || start == goal) && c == Run(start, goal, h, k) && Halted(goal, c)
    requires c.frontier == [] ==> r == NotFound && trace == c.trace
    requires c.frontier != [] ==> r == Found(Head(c).path, c.nodesExpanded + 1) && trace == c.trace + [Head(c)]
    ensures Halted(goal, Run(start, goal, h, k))
    ensures Run(start, goal, h, k).frontier == [] ==> r == NotFound && trace == Run(start, goal, h, k).trace
    ensures Run(start, goal, h, k).frontier != [] ==>
      && r == Found(Head(Run(start, goal, h, k)).path, Run(start, goal, h, k).nodesExpanded + 1)
      && trace == Run(start, goal, h, k).trace + [Head(Run(start, goal, h, k))]
    ensures start == goal ==> r == Found([], 1)
    ensures r.Found? ==> Replay(start, r.path) == Some(goal)
    ensures r.NotFound? <==> forall q :: Replay(start, q) != Some(goal)
    ensures r.Found? ==> 1 <= r.nodesExpanded == |trace| <= |Arrangements(start)|
    ensures r.Found? ==> trace[|trace| - 1] == Ranked(h(goal, goal), goal, r.path)
    ensures forall i, j :: 0 <= i < j < |trace| ==> trace[i].grid != trace[j].grid
    ensures forall i :: 0 <= i < |trace| ==> Replay(start, trace[i].path) == Some(trace[i].grid)
    ensures forall i :: 0 <= i < |trace| ==> trace[i].priority == h(trace[i].grid, goal)
    ensures forall j :: 0 <= j < |trace| ==> trace[j] in Run(start, goal, h, j).frontier
    ensures forall j, e :: 0 <= j < |trace| && e in Run(start, goal, h, j).frontier && e != trace[j] ==> Less(trace[j], e)
  {
    if c.frontier == [] {
      EmptyAt(start, goal, h, k, trace);
    } else {
      FoundAt(start, goal, h, k, Head(c), c.nodesExpanded + 1, trace);
    }
    DequeuedHeads(start, goal, h, k, trace);
    DequeuedLeast(start, goal, h, trace);
  }

  /**
   * best_first_search with heuristic h: returns the path and the number of
   * dequeued states on success, and NotFound once the queue is empty.  The
   * result is the one the loop of the model stops with after k rounds, each
   * of which takes out the least entry in the tuple order (RunTakesLeast):
   * NotFound with an empty queue, otherwise the least entry's path and the
   * count including it.  The path replays from start to the goal; NotFound
   * is returned exactly when no path reaches the goal.  The ghost trace
   * lists the dequeued entries in order: no state is dequeued twice, each
   * path replays to its state, each priority is the heuristic's value for
   * its state, and the j-th entry was queued after j rounds and came before
   * every other entry queued then.
   */
  method BestFirstSearch(start: Grid, goal: Grid, h: (Grid, Grid) -> int) returns (r: SearchResult, ghost trace: seq<Ranked>, ghost k: nat)
    requires Blank in start || start == goal
    ensures Halted(goal, Run(start, goal, h, k))
    ensures Run(start, goal, h, k).frontier == [] ==> r == NotFound && trace == Run(start, goal, h, k).trace
    ensures Run(start, goal, h, k).frontier != [] ==>
      && r == Found(Head(Run(start, goal, h, k)).path, Run(start, goal, h, k).nodesExpanded + 1)
      && trace == Run(start, goal, h, k).trace + [Head(Run(start, goal, h, k))]
    ensures start == goal ==> r == Found([], 1)
    ensures r.Found? ==> Replay(start, r.path) == Some(goal)
    ensures r.NotFound? <==> forall q :: Replay(start, q) != Some(goal)
    ensures r.Found? ==> 1 <= r.nodesExpanded == |trace| <= |Arrangements(start)|
    ensures r.Found? ==> trace[|trace| - 1] == Ranked(h(goal, goal), goal, r.path)
    ensures forall i, j :: 0 <= i < j < |trace| ==> trace[i].grid != trace[j].grid
    ensures forall i :: 0 <= i < |trace| ==> Replay(start, trace[i].path) == Some(trace[i].grid)
    ensures forall i :: 0 <= i < |trace| ==> trace[i].priority == h(trace[i].grid, goal)
    ensures forall j :: 0 <= j < |trace| ==> trace[j] in Run(start, goal, h, j).frontier
    ensures forall j, e :: 0 <= j < |trace| && e in Run(start, goal, h, j).frontier && e != trace[j] ==> Less(trace[j], e)
  {
    var visited, frontier, nodesExpanded;
    ghost var c;
    visited, frontier, nodesExpanded, c, k := Explore(start, goal, h);
    if frontier == [] {
      r, trace := NotFound, c.trace;
    } else {
      var i := Least(frontier);
      r, trace := Found(frontier[i].path, nodesExpanded + 1), c.trace + [frontier[i]];
    }
    Outcome(start, goal, h, k, c, r, trace);
  }
}
