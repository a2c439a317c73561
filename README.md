# 8-puzzle search engine

A Dafny model of the search core of the 8-puzzle solver `puzzle-8.py`. It covers four functions:

- the move generator `get_children`;
- the misplaced-tiles heuristic `misplaced_tiles`;
- breadth-first search `bfs`;
- greedy best-first search `best_first_search`.

A state is a 3x3 grid of labels with the blank as label 0. The model flattens it row by row into a sequence of nine integers (`Board.Grid`). The solver compares grids as lists of rows, and that comparison is the same as comparing their row-major flattenings, both for equality and for Python's `<`.

Modules.

- `Board`: grids, the four moves and their letters `R`, `L`, `D`, `U`, and the slide of the blank.
  - The move generator is a specification function, `Children`. It gives the `(move, child)` entries in the dictionary's insertion order.
  - The imperative `GetChildren` follows the code. It scans the rows and columns for the first blank and stops there. It tries the directions R, L, D, U. For each destination inside the grid it copies the grid into a fresh array and swaps two cells there. It is proved equal to `Children`.
  - A path is replayed from a state by following, for each letter, the entry of that letter (`Step`, `Replay`).
- `Heuristic`: `misplaced_tiles`, with the blank's cell counted like any other.
- `Exploration`: the result type, rearrangements of the start's labels (a finite set that bounds every search), and closure of a visited set under moves.
- `BreadthFirst` and `BestFirst`. Each search has two layers.
  - A ghost model of its loop: `Initial`, one `Round`, and `Run(k)` for the state after k rounds. Invariants are proved for every `Run(k)`.
  - Methods that run the loop on real variables: `EnqueueChildren` (the loop over the children), `Expand` (one round), `Explore` (the `while` loop) and the search method itself.
  - The methods are proved to follow the model round for round. Their postconditions state what the search returns.
- `Ranking`: Python's order on the `(priority, grid, path)` tuples of the priority queue. The priority is compared first, then the grids lexicographically, then the paths by the codes of their letters.
  - This order is proved irreflexive, transitive and total.
  - No state is queued twice, so no two queued tuples are equal. The least tuple is therefore unique, and `get` returns it whatever the heap's layout.
  - The frontier is the sequence of entries in insertion order, and a round removes the least one. Ties on the heuristic fall through to the grid comparison. The path comparison never decides between two queued entries, because their grids always differ.

The heuristic of `best_first_search` is a parameter `h: (Grid, Grid) -> int`. `Heuristic.Misplaced` is the one the program supplies.

## Model

| member | source | states |
|---|---|---|
| Board.FirstBlank | puzzle-8.py:41-47 | the blank found is the first cell holding 0 in row-major order |
| Board.FindBlank | puzzle-8.py:40-47 | the nested scan with `break` stops at row and column of the first blank, both inside the grid |
| Board.Swap | puzzle-8.py:52 | the two cells are exchanged, every other cell is kept, and the labels are a permutation of the input's |
| Board.CopySwapped | puzzle-8.py:51-52 | copying the grid into a fresh array and swapping two cells there yields the swapped grid; the input grid is a value and is left unchanged |
| Board.OfferFrom | puzzle-8.py:49-53 | one direction adds its child exactly when the target row and column are inside the grid |
| Board.Slide | puzzle-8.py:49-52 | the child for one direction, or none when the target is outside the grid; its properties are stated by `Board.SlideSwaps`, `Board.SlideInverse` and `Board.ChildrenCount` |
| Board.Children | puzzle-8.py:48-53 | the entries of the dictionary in insertion order; their properties are stated by `Board.ChildrenSpec`, `Board.ChildrenCount` and `Board.LookupIsStep`, and `Board.GetChildren` is proved to build them |
| Board.GetChildren | puzzle-8.py:38-54 | the dictionary built equals the specified entries `Children(p)` |
| Board.ChildrenSpec | puzzle-8.py:48-53 | every entry is the legal slide its letter names; letters appear in the order R, L, D, U, so none repeats; there is an entry for a direction exactly when its target is in bounds |
| Board.ChildrenCount | puzzle-8.py:48-53 | a corner blank gives 2 children, an edge blank 3, the centre 4 |
| Board.SlideSwaps | puzzle-8.py:51-52 | a child has the blank at the target, the moved tile at the blank's old cell, all other cells unchanged, and is a permutation of the parent |
| Board.SlideInverse | puzzle-8.py:48-53 | on a grid with one blank, the opposite move undoes a move, and the child again has one blank |
| Board.LookupIsStep | puzzle-8.py:48-53 | following the entry for a letter in the children gives the same result as sliding the blank that way |
| Board.ReplaySnoc | puzzle-8.py:70 | replaying `path + [move]` is replaying `path` and then taking one step |
| Heuristic.Mismatches | puzzle-8.py:74 | the count of differing positions is at most the length and is 0 exactly when the sequences are equal |
| Heuristic.Misplaced | puzzle-8.py:73-74 | the score lies between 0 and 9 and is 0 exactly when the grid equals the goal |
| Heuristic.MismatchesCount | puzzle-8.py:74 | the count is the number of positions at which the labels differ |
| Heuristic.MisplacedCountsCells | puzzle-8.py:74 | the score is the number of cells, the blank's included, that differ from the goal |
| Heuristic.OneSlideFromGoal | puzzle-8.py:74 | a state one slide away from a goal with one blank scores 2, because the blank's cell counts |
| Exploration.ArrangedBound | puzzle-8.py:57-58 | a set of rearrangements of the start's labels is no larger than the set of all of them, which bounds the visited set |
| Exploration.StepStaysArranged | puzzle-8.py:67-69 | every child of a rearrangement of the start is one too |
| Exploration.Unreachable | puzzle-8.py:62-71 | a set containing the start and closed under moves holds every state reachable from the start |
| BreadthFirst.DequeueQueued | puzzle-8.py:62-64 | taking the head off the FIFO queue keeps the queue's invariant; the head's path is a shortest path to its state |
| BreadthFirst.ShortestChild | puzzle-8.py:67-70 | a newly visited child recorded one move below the head at the current level has a shortest path |
| BreadthFirst.Enqueue | puzzle-8.py:67-70 | the loop over the children in the model: an unvisited child is marked visited and appended with the parent's path plus its letter; `BreadthFirst.EnqueueChildren` is proved to compute it |
| BreadthFirst.Round | puzzle-8.py:63-70 | one round: the head is dequeued and counted and its children enqueued, unless the loop has stopped; its invariant is kept by `BreadthFirst.RoundInvariant` |
| BreadthFirst.Run | puzzle-8.py:57-70 | the variables after k rounds; `BreadthFirst.RunInvariant` and `BreadthFirst.RunProgress` state their properties, and `BreadthFirst.Explore` is proved to reach one of them |
| BreadthFirst.EnqueueChildren | puzzle-8.py:67-70 | the loop over the children marks each unvisited child visited before appending it with the parent's path plus its letter |
| BreadthFirst.RunInvariant | puzzle-8.py:57-70 | after any number of rounds the queue holds distinct unexpanded states in non-decreasing path length, each with a shortest path that replays to it, and the visited set is bounded |
| BreadthFirst.RunProgress | puzzle-8.py:62-70 | a round that does not stop visits more states or shortens the queue, so the loop terminates |
| BreadthFirst.Expand | puzzle-8.py:63-70 | one round takes the variables after k rounds of the model to those after k + 1 and decreases the termination measure |
| BreadthFirst.Explore | puzzle-8.py:57-70 | the loop stops with an empty queue or the goal at its head, in the state of some number of rounds of the model |
| BreadthFirst.FoundAt | puzzle-8.py:63-66 | a goal at the head returns a shortest path that replays to the goal and a count equal to the number of distinct states dequeued |
| BreadthFirst.EmptyAt | puzzle-8.py:62-71 | an exhausted queue means no path reaches the goal |
| BreadthFirst.Outcome | puzzle-8.py:56-71 | the result once the loop stops, with the properties of `Bfs` |
| BreadthFirst.Bfs | puzzle-8.py:56-71 | the result is the one the model's loop stops with after some number k of rounds: NotFound for an empty queue, otherwise the head's path and the model's count plus one; start equal to goal gives `([], 1)`; a returned path replays to the goal and is shortest; NotFound exactly when the goal is unreachable; the count equals the number of dequeued states, which are distinct, dequeued in non-decreasing path length, and bounded by the number of rearrangements |
| Ranking.Codes | puzzle-8.py:91 | a path's letter codes have one code per letter |
| Ranking.LexLess | puzzle-8.py:83 | Python's `<` on lists of integers; `Ranking.LexIrreflexive`, `Ranking.LexTransitive` and `Ranking.LexTotal` state that it is a strict total order |
| Ranking.Less | puzzle-8.py:83 | Python's `<` on `(priority, grid, path)` tuples; `Ranking.LessIrreflexive`, `Ranking.LessTransitive`, `Ranking.LessAsymmetric` and `Ranking.LessTotal` state that it is a strict total order |
| Ranking.LexTotal | puzzle-8.py:80 | two different lists are ordered by Python's lexicographic `<` one way or the other |
| Ranking.CodesInjective | puzzle-8.py:91 | different paths have different letter codes |
| Ranking.LessIrreflexive | puzzle-8.py:83 | no queue entry comes before itself |
| Ranking.LessTransitive | puzzle-8.py:83 | the tuple order is transitive |
| Ranking.LessAsymmetric | puzzle-8.py:83 | two entries are never ordered both ways |
| Ranking.LessTotal | puzzle-8.py:80-83 | two different entries are ordered one way or the other |
| Ranking.Least | puzzle-8.py:83 | the position of the earliest least entry lies inside the queue |
| Ranking.LeastIsLeast | puzzle-8.py:83 | no entry of the queue comes before the entry `get` takes |
| Ranking.LeastUnique | puzzle-8.py:83 | among distinct entries the least comes before every other one and is the only entry nothing comes before |
| Ranking.Remove | puzzle-8.py:83 | taking an entry out leaves the others in their order |
| BestFirst.GridsRemove | puzzle-8.py:83 | taking out an entry of a queue of distinct states removes exactly its state |
| BestFirst.DequeuePool | puzzle-8.py:83-84 | taking out the least entry keeps the queue's invariant; the entry is visited, not yet expanded, replays to its state and carries the heuristic's value |
| BestFirst.EnqueueOne | puzzle-8.py:88-91 | queuing an unvisited child with priority `h(child, goal)` keeps the queue's invariant |
| BestFirst.Head | puzzle-8.py:83 | the entry `get` returns: the least entry of the queue; `BestFirst.RunTakesLeast` states that it comes before every other queued entry |
| BestFirst.Enqueue | puzzle-8.py:87-91 | the loop over the children in the model: an unvisited child is marked visited and queued with priority `h(child, goal)` and the parent's path plus its letter; `BestFirst.EnqueueChildren` is proved to compute it |
| BestFirst.Round | puzzle-8.py:83-91 | one round: the least entry is taken out and counted and its children queued, unless the loop has stopped; its invariant is kept by `BestFirst.RoundInvariant` and `BestFirst.RoundLog` |
| BestFirst.Run | puzzle-8.py:77-91 | the variables after k rounds; `BestFirst.RunInvariant`, `BestFirst.RunTakesLeast`, `BestFirst.RunTrace` and `BestFirst.RunProgress` state their properties, and `BestFirst.Explore` is proved to reach one of them |
| BestFirst.EnqueueChildren | puzzle-8.py:87-91 | the loop over the children marks each unvisited child visited and queues it with its priority and the parent's path plus its letter |
| BestFirst.RunInvariant | puzzle-8.py:77-91 | after any number of rounds every queued state is distinct and unexpanded, replays from the start and carries the heuristic's value; the dequeued states' children are visited; the visited set is bounded |
| BestFirst.RunTakesLeast | puzzle-8.py:83 | the entry each round takes comes before every other queued entry in the tuple order |
| BestFirst.RunTrace | puzzle-8.py:82-86 | after any number of rounds the j-th entry of the trace is the least entry after j rounds, for every j |
| BestFirst.TraceStep | puzzle-8.py:83-84 | a round appends the least entry it takes out to the trace, or changes nothing from then on |
| BestFirst.DequeuedHeads | puzzle-8.py:82-86 | in the trace of a stopped loop, including the goal entry, the j-th entry is the least entry after j rounds |
| BestFirst.DequeuedLeast | puzzle-8.py:83 | every dequeued entry was in the queue when it was taken out and came before every other entry queued then |
| BestFirst.RunProgress | puzzle-8.py:82-91 | a round that does not stop visits more states or shortens the queue, so the loop terminates |
| BestFirst.Expand | puzzle-8.py:83-91 | one round takes the variables after k rounds of the model to those after k + 1 and decreases the termination measure |
| BestFirst.Explore | puzzle-8.py:77-91 | the loop stops with an empty queue or the goal as the least entry, in the state of some number of rounds of the model |
| BestFirst.FoundAt | puzzle-8.py:83-86 | the goal as least entry returns a path that replays to the goal and a count equal to the number of distinct states dequeued |
| BestFirst.EmptyAt | puzzle-8.py:82-92 | an exhausted queue means no path reaches the goal |
| BestFirst.Outcome | puzzle-8.py:76-92 | the result once the loop stops, with the properties of `BestFirstSearch` |
| BestFirst.BestFirstSearch | puzzle-8.py:76-92 | the result is the one the model's loop stops with after some number k of rounds: NotFound for an empty queue, otherwise the least entry's path and the model's count plus one; the j-th dequeued entry was in the queue after j rounds and came before every other entry queued then, in the tuple order; start equal to goal gives `([], 1)`; a returned path replays to the goal; NotFound exactly when the goal is unreachable; the count equals the number of dequeued states, which are distinct, each reached by its path and ranked by the heuristic, and bounded by the number of rearrangements |

## Left out

- `read_puzzle`, `read_puzzle_file`, `print_puzzle`, `print_results` and `main` are file and console I/O and process control, and are not modelled.
- The glue in `main` is not modelled. It calls `best_first_search` with two arguments instead of three, and it passes tuple-of-tuple grids that `get_children` could not assign into. The model calls the searches with list grids and an explicit heuristic.
- The unused `MOVES` dictionary and the duplicate import are not modelled: neither has any effect.
- The thread-safety and heap layout of `queue.Queue` and `queue.PriorityQueue` are not modelled. The FIFO queue is a sequence. The priority queue is the sequence of its entries, and `get` takes the least entry, which is proved unique.
- The grid dimensions are fixed at 3x3. The code reads them from the input, but the solver only handles the 8-puzzle.
- A grid without a blank is only partly handled. `get_children` requires a blank: without one, its row and column stay `None` and the code fails with a `TypeError`. Both searches accept a start without a blank when it equals the goal, and return `([], 1)` at once as the code does, since `get_children` is never called. The one case they exclude is a start without a blank that differs from the goal; there the code fails with a `TypeError` in `get_children`.
- On failure both searches return `(None, None)`. The model returns `NotFound`, with no count.
- The heuristic is a total, pure function value. A heuristic with side effects or exceptions is not modelled.
- BestFirst.BestFirstSearch: does not claim a shortest path, because greedy best-first search does not find one.
- The dequeued-entry trace of both searches is ghost. The code keeps no such list; it is there only to state the order in which states are expanded.
