# code-conquer: the turn and movement engine, its server helpers and the minigame algorithms

code-conquer is a board game played on phones around a table. A Spring server keeps the authoritative game:
- the lobby, where players join, roll a d20 and become ready;
- the start, where turn orders are fixed from the lobby rolls;
- the turn cycle: roll the die, walk the directed board, pause at forks, and land on SPECIAL, JAIL or FINISH;
- special cards, and jail turns that are skipped;
- challenge fields, where a minigame is opened and its score is saved before the turn passes on.

The React frontend hosts the minigames (BST insert, graph pathfinder, stack maze, queue commander) and a few shared helpers.

This project models that core in Dafny and proves what the code promises of it.

- **Server state.** One game session is a `GameModel.Session` object. Its fields are those the services set. Its players are a sequence in join order. The board is an immutable `BoardGraphs.BoardGraph`. Each service operation is a method that changes the session in place. Its `ensures` ties the new state (`Snap()`) to a function of the old one, and the lemmas state the rules of the game about those functions:
  - turn orders are always 1..n;
  - the skip loop skips exactly the run of jailed holders;
  - a walk never takes more edges than steps;
  - refusals change nothing;
  - one challenge per turn;
  - a saved score adds exactly its points;
  - finishing is idempotent.
- **Server helpers.** Challenge routing with its no-repeat rule, answer normalisation, and player registration.
- **Minigames.** React state is immutable, so each page's state is a value (`Round`) and each click handler is a function from state to state. The algorithms that loop become methods with loop invariants, proved against specification functions:
  - breadth-first search;
  - Dijkstra with predecessors;
  - the stack-machine simulation;
  - the maze and level generators;
  - the event-feed merge.

Randomness is always a parameter: dice, UUIDs, shuffles, random picks and maze walls.

In the queue commander, every target schedule the level generator builds (pairs, pauses or random batches) reproduces the incoming order itself, since a FIFO queue cannot reorder (`QueueCommander.PairedTarget`, `QueueCommander.BatchedTarget`). So the target is always the incoming order, whatever the level. The "Wrong!" branch of dequeue, and with it the lost state, is unreachable (`QueueCommander.HandlersKeepConsistent`), and every level is won by alternating the two buttons (`QueueCommander.GreedyWins`). The generator's comment that from level 5 one must enqueue several items before dequeuing does not hold.

## Model

| member | source | states |
|---|---|---|
| `BoardGraphService.Validate` | server/src/main/java/com/codeconquer/server/service/BoardGraphService.java:136-162 | the node and edge loops report an error exactly when the definition is not well formed, and that error is the first check that fails in source order |
| `BoardGraphService.ValidationErrorIffIllFormed` | server/src/main/java/com/codeconquer/server/service/BoardGraphService.java:136-162 | validation fails if and only if the board lacks nodes or edges, has a blank, untyped or duplicate node id, does not have exactly one START and one FINISH, or has an edge with a blank or unknown end |
| `BoardGraphService.FirstNodeErrorNone` | server/src/main/java/com/codeconquer/server/service/BoardGraphService.java:142-147 | the node loop passes if and only if every id is non-blank, typed and not seen before |
| `BoardGraphService.FirstEdgeErrorNone` | server/src/main/java/com/codeconquer/server/service/BoardGraphService.java:154-159 | the edge loop passes if and only if both ends of every edge are non-blank ids of declared nodes |
| `BoardGraphService.LoadGraph` | server/src/main/java/com/codeconquer/server/service/BoardGraphService.java:99-134 | an invalid definition yields the validation error; a valid one yields the graph built from its type map, outgoing lists and START, FINISH and first JAIL ids |
| `BoardGraphService.TypesOfLookup` | server/src/main/java/com/codeconquer/server/service/BoardGraphService.java:105-108 | the type map holds exactly the declared ids, each with its declared type |
| `BoardGraphService.FirstIdOfTypeFound` | server/src/main/java/com/codeconquer/server/service/BoardGraphService.java:115-128 | findFirst finds an id exactly when some node has the type, and the id found is the first such node's |
| `BoardGraphService.LoadedOutgoing` | server/src/main/java/com/codeconquer/server/service/BoardGraphService.java:110-113 | outgoing(n) lists the targets of the edges from n in declaration order, empty when there are none |
| `BoardGraphService.LoadedType` | server/src/main/java/com/codeconquer/server/service/BoardGraphService.java:105-108 | getType returns a node's declared type and null exactly for an undeclared id |
| `BoardGraphService.LoadedSpecialNodes` | server/src/main/java/com/codeconquer/server/service/BoardGraphService.java:115-128 | start and finish name the START and FINISH nodes; the jail is absent exactly when no node is JAIL and is otherwise the first JAIL node |
| `BoardGraphService.Labelled` | server/src/main/java/com/codeconquer/server/service/BoardGraphService.java:77-88 | one option per outgoing target, labelled shortcut, straight or generic by the hard-coded fork maps |
| `BoardGraphService.GetForkOptions` | server/src/main/java/com/codeconquer/server/service/BoardGraphService.java:54-97 | the labelling loop followed by the sort yields the specified fork options |
| `BoardGraphService.ForkOptionsPermutation` | server/src/main/java/com/codeconquer/server/service/BoardGraphService.java:54-97 | no options for a blank id or a node without edges; otherwise the options are a rearrangement of one option per outgoing target |
| `BoardGraphService.ForkOptionsLabels` | server/src/main/java/com/codeconquer/server/service/BoardGraphService.java:77-88 | every option carries the label the fork maps give its target |
| `BoardGraphService.ForkOptionsOrdered` | server/src/main/java/com/codeconquer/server/service/BoardGraphService.java:90-94 | shortcut options come first and targets ascend lexicographically within each group |
| `BstInsert.Insert` | frontend/src/pages/BSTInsertPage.jsx:35-40 | insertion returns a non-empty tree with one more node whose values are the old ones plus the new value |
| `BstInsert.InsertKeepsOrder` | frontend/src/pages/BSTInsertPage.jsx:35-40 | inserting into a search tree gives a search tree (smaller values left, equal or greater right) |
| `BstInsert.InsertAddsOne` | frontend/src/pages/BSTInsertPage.jsx:35-40 | the inorder multiset gains exactly one occurrence of the value |
| `BstInsert.InsertHeight` | frontend/src/pages/BSTInsertPage.jsx:35-45 | the height grows by at most one and never shrinks |
| `BstInsert.Height` | frontend/src/pages/BSTInsertPage.jsx:42-45 | the height is at most the node count and at least 1 for a non-empty tree |
| `BstInsert.BuildBalanced` | frontend/src/pages/BSTInsertPage.jsx:47-55 | the tree built from sorted[lo..hi] lists exactly that slice in inorder |
| `BstInsert.BalancedIsBst` | frontend/src/pages/BSTInsertPage.jsx:47-55 | a build from a strictly ascending list is a search tree |
| `BstInsert.Clone` | frontend/src/pages/BSTInsertPage.jsx:57-60 | the copy equals the original |
| `BstInsert.FindInsertionSlot` | frontend/src/pages/BSTInsertPage.jsx:62-84 | the walk down the tree ends in the slot at the end of the comparison route; no parent for an empty tree |
| `BstInsert.RouteEndsEmpty` | frontend/src/pages/BSTInsertPage.jsx:62-84 | the route ends at an empty child, so the slot is free |
| `BstInsert.SlotIsRouteEnd` | frontend/src/pages/BSTInsertPage.jsx:62-84 | the slot's parent is the node one step before the empty child and its side is the last step taken |
| `BstInsert.EqualGoesConfiguredSide` | frontend/src/pages/BSTInsertPage.jsx:62-84 | an equal value at the parent goes to the side eqGoesLeft selects |
| `BstInsert.InsertFillsSlot` | frontend/src/pages/BSTInsertPage.jsx:35-84 | with equal values going right, following the route in the tree after insertion reaches the new leaf holding the value |
| `BstInsert.LayoutBuilder.Walk` | frontend/src/pages/BSTInsertPage.jsx:97-115 | the recursive walk appends the subtree's nodes, edges and empty slots in inorder and advances the column by its size |
| `BstInsert.LayoutBuilder.Visit` | frontend/src/pages/BSTInsertPage.jsx:102-112 | a node's own step appends it at the next column, then its child edges and its empty-child slots |
| `BstInsert.BuildLayout` | frontend/src/pages/BSTInsertPage.jsx:86-115 | the layout is the walk from the root at depth 0 over empty accumulators |
| `BstInsert.LayoutIsInorder` | frontend/src/pages/BSTInsertPage.jsx:97-115 | the laid-out values are the inorder listing, one column each, left to right |
| `BstInsert.LayoutCounts` | frontend/src/pages/BSTInsertPage.jsx:97-115 | a tree of k nodes gets k - 1 edges and k + 1 empty slots |
| `BstInsert.AnswerIsOffered` | frontend/src/pages/BSTInsertPage.jsx:62-115 | the slot the answer names is one of the drop targets the layout offers |
| `BstInsert.MaxStrikes` | frontend/src/pages/BSTInsertPage.jsx:219-223 | unlimited strikes exactly on EASY, otherwise at least two (2 on HARD, 3 otherwise) |
| `BstInsert.Checked` | frontend/src/pages/BSTInsertPage.jsx:344-380 | only a playing round changes; no slot counts a mistake; the right slot wins; a wrong slot counts a mistake and loses once the strikes are used up |
| `BstInsert.EasyNeverLost` | frontend/src/pages/BSTInsertPage.jsx:219-380 | on EASY a check never loses the round |
| `BstInsert.RightSlotWins` | frontend/src/pages/BSTInsertPage.jsx:344-380 | choosing the slot the tree prescribes and checking wins without a mistake |
| `PathGraph.KeyOf` | frontend/src/pages/GraphPathfinderPage.jsx:24-26 | the key names the unordered pair: its two ends are {u, v}, smaller first |
| `PathGraph.KeySymmetric` | frontend/src/pages/GraphPathfinderPage.jsx:24-26 | edgeKey(u, v) equals edgeKey(v, u), and two keys are equal exactly when they name the same pair |
| `PathGraph.AdjOf` | frontend/src/pages/GraphPathfinderPage.jsx:202-209 | the adjacency lists have one entry per node |
| `PathGraph.BuildAdj` | frontend/src/pages/GraphPathfinderPage.jsx:202-209 | the push loop builds the specified adjacency lists |
| `PathGraph.AdjHasBothDirections` | frontend/src/pages/GraphPathfinderPage.jsx:202-209 | every edge appears in both of its ends' lists with its weight |
| `PathGraph.AdjFromEdges` | frontend/src/pages/GraphPathfinderPage.jsx:202-209 | every adjacency entry comes from an edge, in one direction or the other |
| `PathGraph.EdgeMapHasEdge` | frontend/src/pages/GraphPathfinderPage.jsx:296-302 | in a simple edge list, the key of each edge maps to its weight |
| `PathGraph.ArcWeightInMap` | frontend/src/pages/GraphPathfinderPage.jsx:296-306 | the edge map and the adjacency lists agree: an entry a to b of weight w means the map holds w under edgeKey(a, b) |
| `PathGraph.PathWeight` | frontend/src/pages/GraphPathfinderPage.jsx:308-316 | the summing loop yields the path cost, none (Infinity) at the first step missing from the map |
| `PathGraph.PathCostNoneExtends` | frontend/src/pages/GraphPathfinderPage.jsx:308-316 | once a step is missing the cost stays Infinity whatever follows |
| `PathGraph.ClampedWeightsPositive` | frontend/src/pages/GraphPathfinderPage.jsx:116-124 | weights clamped to 1..9 make every adjacency weight positive and every entry in range |
| `PathGraph.WalkCostIsPathWeight` | frontend/src/pages/GraphPathfinderPage.jsx:296-316 | a walk in a simple graph costs what pathWeight computes: the sum of its step weights |
| `ShortestPaths.SelectMin` | frontend/src/pages/GraphPathfinderPage.jsx:219-227 | the selection loop returns the first unsettled node of strictly smallest finite distance, or -1 when none is finite |
| `ShortestPaths.Relax` | frontend/src/pages/GraphPathfinderPage.jsx:231-237 | relaxation lowers exactly the neighbours reached more cheaply through v, pointing their predecessor at v, and changes nothing else |
| `ShortestPaths.SettledUnchanged` | frontend/src/pages/GraphPathfinderPage.jsx:231-237 | settled nodes keep their distance and predecessor through a relaxation |
| `ShortestPaths.DijkstraWithPrev` | frontend/src/pages/GraphPathfinderPage.jsx:211-241 | with positive weights the result is a shortest-path tree: the start at 0, every predecessor link an edge whose weight is the distance difference, and no walk from the start cheaper than the distance of its end |
| `ShortestPaths.Step` | frontend/src/pages/GraphPathfinderPage.jsx:218-238 | one select-settle-relax round keeps the loop invariant |
| `ShortestPaths.Optimality` | frontend/src/pages/GraphPathfinderPage.jsx:211-241 | at the end every walk from the start costs at least the distance of its last node |
| `ShortestPaths.WalkBound` | frontend/src/pages/GraphPathfinderPage.jsx:211-241 | every walk from the start ends at a reached node whose distance is at most the walk's cost |
| `ShortestPaths.Chain` | frontend/src/pages/GraphPathfinderPage.jsx:243-250 | the predecessor chain is non-empty, ends at x and stays within the node range |
| `ShortestPaths.ReconstructPath` | frontend/src/pages/GraphPathfinderPage.jsx:243-254 | the push-and-reverse loop yields the chain from the start to the goal, or [] when the chain does not start at the start |
| `ShortestPaths.ChainIsShortestWalk` | frontend/src/pages/GraphPathfinderPage.jsx:243-254 | in a shortest-path tree every node at finite distance is reached by its chain, a walk whose weights sum to the distance |
| `ShortestPaths.ReconstructedPathIsShortest` | frontend/src/pages/GraphPathfinderPage.jsx:243-254 | for an unreachable goal the path is []; otherwise it is a walk from the start to the goal costing exactly the goal's distance, and no walk is cheaper |
| `PathfinderGame.Fresh` | frontend/src/pages/GraphPathfinderPage.jsx:287-294 | a reset round is the start node alone, playing, with no errors |
| `PathfinderGame.LastIndexOf` | frontend/src/pages/GraphPathfinderPage.jsx:357-358 | -1 exactly when the node is absent, otherwise its last position |
| `PathfinderGame.OnNodeClick` | frontend/src/pages/GraphPathfinderPage.jsx:349-369 | a click is ignored unless playing and new; an earlier node truncates the route to its last occurrence; a non-neighbour is refused with a message; a neighbour is appended |
| `PathfinderGame.Undo` | frontend/src/pages/GraphPathfinderPage.jsx:344-347 | undo drops the last node while playing and never the start |
| `PathfinderGame.Checked` | frontend/src/pages/GraphPathfinderPage.jsx:371-406 | no error is counted exactly when the optimum is finite and non-zero, the route ends at the goal, follows edges and has a weight; then the round is won and Perfect exactly when the cost equals the optimum |
| `PathfinderGame.Check` | frontend/src/pages/GraphPathfinderPage.jsx:371-406 | the guard sequence with its step loop yields the specified outcome |
| `PathfinderGame.ClicksKeepRoute` | frontend/src/pages/GraphPathfinderPage.jsx:344-369 | clicks and undo keep the route a connected route from the start |
| `PathfinderGame.ConnectedIsWalk` | frontend/src/pages/GraphPathfinderPage.jsx:304-306 | a connected route is a walk whose weights are read off the adjacency entries |
| `PathfinderGame.WalkConnected` | frontend/src/pages/GraphPathfinderPage.jsx:304-306 | every walk is a connected route |
| `PathfinderGame.WinIsNoCheaperThanOptimum` | frontend/src/pages/GraphPathfinderPage.jsx:371-406 | a won check means the route ends at the goal and costs at least Dijkstra's optimum, with Perfect exactly at the optimum |
| `PathfinderGame.OptimalPathIsPerfect` | frontend/src/pages/GraphPathfinderPage.jsx:243-406 | following Dijkstra's reconstructed path to a reachable goal other than the start wins with Perfect |
| `Seqs.Reversed` | frontend/src/pages/StackMazePage.jsx:104 | the reversed copy has the same length, element i being element n-1-i of the original |
| `Seqs.Pick` | frontend/src/pages/StackMazePage.jsx:96 | a draw in [0, 1) scaled to i + 1 and floored lands in 0..i |
| `Seqs.ShuffledPermutes` | frontend/src/pages/StackMazePage.jsx:95-98 | the swap loop only reorders: the shuffled sequence has the same multiset |
| `Seqs.Shuffle` | frontend/src/pages/StackMazePage.jsx:95-98 | the in-place swap loop leaves the array holding the specified shuffle of its old contents |
| `MazeGrid.Neighbours` | frontend/src/pages/StackMazePage.jsx:53-58 | the four cells one step away, in the order up, down, left, right |
| `MazeGrid.Expand` | frontend/src/pages/StackMazePage.jsx:39-49 | the direction loop marks and queues exactly the open, in-bounds, unseen neighbours, keeping the queue's old part |
| `MazeGrid.ClosedHoldsWalk` | frontend/src/pages/StackMazePage.jsx:26-51 | a set holding the start and closed under open steps holds the end of every walk |
| `MazeGrid.FrontierStep` | frontend/src/pages/StackMazePage.jsx:36-50 | dequeuing and expanding a cell keeps the search frontier invariant, and the queue shrinks when nothing new is seen |
| `MazeGrid.SearchComplete` | frontend/src/pages/StackMazePage.jsx:26-78 | when the queue empties the seen set is exactly the cells a walk from the corner can reach |
| `MazeGrid.HasPath` | frontend/src/pages/StackMazePage.jsx:26-51 | true exactly when the goal corner is reachable from the start corner through open cells |
| `MazeGrid.ReachableCells` | frontend/src/pages/StackMazePage.jsx:60-78 | the returned set is exactly the cells reachable from the start corner |
| `MazeGrid.Candidates` | frontend/src/pages/StackMazePage.jsx:84-93 | the nested loops collect the filtered cells in row-major order |
| `MazeGrid.CandidatesBefore` | frontend/src/pages/StackMazePage.jsx:84-93 | a cell is among the candidates of the rows before r exactly when it lies in those rows, is open, reachable and neither corner |
| `MazeGrid.PlaceStars` | frontend/src/pages/StackMazePage.jsx:80-100 | the stars are the first min(count, candidates) of the shuffled candidates |
| `MazeGrid.StarsOnReachableFloor` | frontend/src/pages/StackMazePage.jsx:80-100 | there are min(count, candidates) stars, drawn from the candidates, each on a reachable floor cell other than the two corners |
| `MazeGrid.EmptyGrid` | frontend/src/pages/StackMazePage.jsx:150 | an all-floor square grid of the given size |
| `MazeGrid.Cleared` | frontend/src/pages/StackMazePage.jsx:139-147 | clearing keeps the grid square |
| `MazeGrid.MakeMaze` | frontend/src/pages/StackMazePage.jsx:128-151 | the maze is always square and solvable; it is the first solvable attempt of the 40 (every earlier attempt cut the goal off), or the empty grid when all 40 attempts were unsolvable |
| `MazeGrid.BuildAttempt` | frontend/src/pages/StackMazePage.jsx:130-146 | one attempt's wall-scattering loop and corridor clearing build exactly the specified attempt grid |
| `MazeGrid.EmptyGridSolvable` | frontend/src/pages/StackMazePage.jsx:149-150 | the fallback grid is solvable along the top row and the last column |
| `StackMaze.GetConfig` | frontend/src/pages/StackMazePage.jsx:153-191 | the upper-cased difficulty selects the HARD or MEDIUM settings, anything else (or none) the EASY ones |
| `StackMaze.StarCount` | frontend/src/pages/StackMazePage.jsx:208 | four stars exactly for "HARD" and three exactly for "MEDIUM", compared without upper-casing, otherwise two |
| `StackMaze.DirOf` | frontend/src/pages/StackMazePage.jsx:111 | a key names a direction exactly when it is U, D, L or R, and then the direction of that key |
| `StackMaze.SimulatePath` | frontend/src/pages/StackMazePage.jsx:102-126 | the loop over the reversed stack yields the specified outcome |
| `StackMaze.SimulateEnergy` | frontend/src/pages/StackMazePage.jsx:102-126 | each executed move costs one energy, unknown keys cost nothing, energy never goes negative, and energy left over means every direction key ran |
| `StackMaze.SimulateSteps` | frontend/src/pages/StackMazePage.jsx:102-126 | each path step stays put or enters an open neighbour, and the crashes are the steps that stay put |
| `StackMaze.SimulateStaysReachable` | frontend/src/pages/StackMazePage.jsx:102-126 | from a reachable cell the preview never leaves the reachable region |
| `StackMaze.PushMove` | frontend/src/pages/StackMazePage.jsx:291-297 | a push is refused when over, while running or at the stack limit (20 when the limit is 0), and otherwise appends the key |
| `StackMaze.PopMove` | frontend/src/pages/StackMazePage.jsx:299-304 | a pop drops the top key while playing and not running; an empty stack stays empty |
| `StackMaze.ToggleRun` | frontend/src/pages/StackMazePage.jsx:672-678 | the Run button flips running while playing with a non-empty stack and does nothing otherwise |
| `StackMaze.StepOnce` | frontend/src/pages/StackMazePage.jsx:306-330 | a step pops the top key and costs one energy; the robot crashes in place exactly when the key's target cell (its own cell for an unknown key) is off the grid or a wall, and otherwise moves onto that target |
| `StackMaze.DirMoves` | frontend/src/pages/StackMazePage.jsx:314-317 | a direction key moves to a different, adjacent cell |
| `StackMaze.Settle` | frontend/src/pages/StackMazePage.jsx:340-366 | a finished round is unchanged; otherwise a star under the robot is collected, the goal wins and no energy loses |
| `StackMaze.PreviewPredictsStep` | frontend/src/pages/StackMazePage.jsx:102-126 | the preview of the whole stack is the current cell followed by the preview after one stepOnce |
| `StackMaze.StepStaysReachable` | frontend/src/pages/StackMazePage.jsx:306-330 | a robot on reachable ground stays on reachable ground |
| `QueueCommander.Clamp` | frontend/src/pages/QueueCommanderPage.jsx:9-11 | the result lies in lo..hi, is n when n does and the nearer bound otherwise |
| `QueueCommander.Capacity` | frontend/src/pages/QueueCommanderPage.jsx:34 | the capacity is 4 + (L-1)/2, within 4..7 |
| `QueueCommander.IncomingCount` | frontend/src/pages/QueueCommanderPage.jsx:35 | 7 + L items for levels up to 7, capped at 14 on level 8 |
| `QueueCommander.Range` | frontend/src/pages/QueueCommanderPage.jsx:38 | the items 1..n in ascending order |
| `QueueCommander.Between` | frontend/src/pages/QueueCommanderPage.jsx:13-15 | randInt(1, hi + 1) lies in 1..hi + 1 |
| `QueueCommander.ShuffleCopy` | frontend/src/pages/QueueCommanderPage.jsx:17-24 | the copy is shuffled by the specified swap loop and holds the same multiset |
| `QueueCommander.Flush` | frontend/src/pages/QueueCommanderPage.jsx:62 | flushing appends the whole queue to the target in order |
| `QueueCommander.PairedTarget` | frontend/src/pages/QueueCommanderPage.jsx:47-62 | the "enqueue two, dequeue one" schedule produces the incoming order itself |
| `QueueCommander.BatchedTarget` | frontend/src/pages/QueueCommanderPage.jsx:64-76 | the random batch schedule produces the incoming order itself, whatever the draws |
| `QueueCommander.Schedule` | frontend/src/pages/QueueCommanderPage.jsx:44-76 | whichever of the three level patterns applies (copy, pairs, random batches), the target equals the incoming items |
| `QueueCommander.MakeLevel` | frontend/src/pages/QueueCommanderPage.jsx:30-90 | the level is clamped to 1..8, the incoming items are the shuffled 1..n, the knobs follow the level, and the target equals the incoming order |
| `QueueCommander.HardReset` | frontend/src/pages/QueueCommanderPage.jsx:145-154 | the same level from the beginning: nothing taken, empty queue and output, playing, no errors |
| `QueueCommander.NextIncoming` | frontend/src/pages/QueueCommanderPage.jsx:139 | the next item exists exactly while items remain, and is the one at the index |
| `QueueCommander.ExpectedNext` | frontend/src/pages/QueueCommanderPage.jsx:140 | the expected item exists exactly while the output is short of the target, and is the target item at the output's length |
| `QueueCommander.Enqueue` | frontend/src/pages/QueueCommanderPage.jsx:162-177 | ignored unless playing; no item left or a full queue counts an error; otherwise the next item joins the back of the queue |
| `QueueCommander.Dequeue` | frontend/src/pages/QueueCommanderPage.jsx:179-200 | ignored unless playing; an empty queue counts an error; a front other than the expected item counts an error and loses; otherwise the front moves to the output |
| `QueueCommander.Bonus` | frontend/src/pages/QueueCommanderPage.jsx:206 | the bonus is never negative |
| `QueueCommander.CheckWinIfDone` | frontend/src/pages/QueueCommanderPage.jsx:202-208 | a complete output wins with the bonus in the message; otherwise nothing changes |
| `QueueCommander.Settle` | frontend/src/pages/QueueCommanderPage.jsx:211-215 | after rendering, a round is won exactly when it was won or was playing with a complete output, and lost exactly when it was lost |
| `QueueCommander.NewRound` | frontend/src/pages/QueueCommanderPage.jsx:156-160 | a fresh round on a newly generated level, from the start and with no errors, satisfies the round invariant |
| `QueueCommander.NextLevel` | frontend/src/pages/QueueCommanderPage.jsx:433-441 | disabled while playing; otherwise one level up (at most 8) on a newly generated level, reset |
| `QueueCommander.IncomingIsOneToN` | frontend/src/pages/QueueCommanderPage.jsx:38 | the incoming items are exactly 1..n |
| `QueueCommander.EnqueueButton` | frontend/src/pages/QueueCommanderPage.jsx:162-218 | the Enqueue button (canEnqueue) is enabled exactly when a press takes the next item into the queue without an error; a press while it is disabled in a playing round counts an error and moves nothing |
| `QueueCommander.DequeueButton` | frontend/src/pages/QueueCommanderPage.jsx:179-218 | the Dequeue button (canDequeue) is enabled exactly when the queue has a front; in a consistent round a press then delivers the front without an error, and a press while it is disabled in a playing round counts an error and moves nothing |
| `QueueCommander.FrontIsExpected` | frontend/src/pages/QueueCommanderPage.jsx:179-200 | under the round invariant the front of the queue is always the expected item |
| `QueueCommander.HandlersKeepConsistent` | frontend/src/pages/QueueCommanderPage.jsx:145-215 | every handler keeps the round invariant; a dequeue from a non-empty queue never loses and counts no error |
| `QueueCommander.DoneMeansDelivered` | frontend/src/pages/QueueCommanderPage.jsx:142 | a complete output means every item was taken and delivered in the target order |
| `QueueCommander.WinBonus` | frontend/src/pages/QueueCommanderPage.jsx:202-208 | winning leaves nothing incoming or queued, so the bonus is 8 per slot of the capacity |
| `QueueCommander.Greedy` | frontend/src/pages/QueueCommanderPage.jsx:162-200 | alternating enqueue and dequeue keeps the invariant and an empty queue |
| `QueueCommander.GreedyWins` | frontend/src/pages/QueueCommanderPage.jsx:162-215 | every level can be won without a single error by alternating the two buttons |
| `TurnSummary.NextOrder` | frontend/src/pages/TurnSummary.jsx:26-28 | the order after the current one (a missing or zero current read as 1), wrapping from n to 1 and staying in 1..n |
| `TurnSummary.FindOrder` | frontend/src/pages/TurnSummary.jsx:29 | the first player holding the order, none exactly when nobody holds it |
| `TurnSummary.NextPlayer` | frontend/src/pages/TurnSummary.jsx:22-30 | none for a missing or empty list; otherwise the player found holds the next order and none means nobody holds it |
| `TurnSummary.NextPlayerIsFirstHolder` | frontend/src/pages/TurnSummary.jsx:22-30 | the stable sort does not change the answer: it is the first holder of the next order in the list as given |
| `TurnSummary.LastWrapsToFirst` | frontend/src/pages/TurnSummary.jsx:26-29 | with orders 1..n held once each, the holder of order n hands over to the holder of order 1 |
| `Scoring.NormalizeDifficulty` | frontend/src/lib/scoring.js:14-20 | a missing or empty difficulty is EASY; the upper-cased aliases MED and M map to MEDIUM, H to HARD, E to EASY, and any other text stays upper-cased |
| `Scoring.ConfigFor` | frontend/src/lib/scoring.js:8-12 | the EASY row for any name other than MEDIUM or HARD; base and target time are positive |
| `Scoring.Round` | frontend/src/lib/scoring.js:45-47 | Math.round lands within half a unit of its argument, halves rounding up |
| `Scoring.RoundMonotone` | frontend/src/lib/scoring.js:45-47 | rounding is monotone |
| `Scoring.ClampReal` | frontend/src/lib/scoring.js:4-6 | the clamped value lies in lo..hi and is the value itself when it already does |
| `Scoring.Seconds` | frontend/src/lib/scoring.js:33 | whole seconds, never below 1, the rounded quotient from 1.5 seconds up |
| `Scoring.ComputePoints` | frontend/src/lib/scoring.js:30-49 | a lost round scores 0; points are never negative and never exceed the base times the largest time factor |
| `Scoring.UnknownDifficultyIsEasy` | frontend/src/lib/scoring.js:30-32 | an unknown or missing difficulty is scored as EASY |
| `Scoring.MoreErrorsNoMorePoints` | frontend/src/lib/scoring.js:43-48 | more errors never score more |
| `Scoring.FastCleanWinGetsBase` | frontend/src/lib/scoring.js:38-48 | a win at or under the target time without errors scores at least the base |
| `Scoring.Decimal` | frontend/src/lib/scoring.js:53-54 | String(n) is a non-empty run of decimal digits, one digit exactly below 10 |
| `Scoring.DecimalValue` | frontend/src/lib/scoring.js:53-54 | the decimal text reads back to the number |
| `Scoring.PadTwo` | frontend/src/lib/scoring.js:53-54 | padStart(2, "0") makes a one-character text two long and keeps longer texts |
| `Scoring.PaddedField` | frontend/src/lib/scoring.js:53-54 | a padded field reads back to its number, with two digits below 100 and at least two otherwise |
| `Scoring.FormatTime` | frontend/src/lib/scoring.js:51-56 | the text ends in a colon and two seconds digits, and is "00:00" for a missing or sub-second time |
| `Scoring.FormatTimeReadsBack` | frontend/src/lib/scoring.js:51-56 | minutes times 60 plus seconds read back to max(0, floor(timeMs / 1000)), the seconds field below 60 |
| `EventFeed.DedupRepresents` | frontend/src/components/EventFeed.jsx:64-68 | the Map keeps, for every seq of a non-null entry, the last entry with that seq, and nothing else |
| `EventFeed.ValuesOf` | frontend/src/components/EventFeed.jsx:69 | the Map's values in key order |
| `EventFeed.Newest` | frontend/src/components/EventFeed.jsx:71 | slice(-n) keeps the last n elements, or all of them when there are fewer |
| `EventFeed.MergeEvents` | frontend/src/components/EventFeed.jsx:61-72 | the fill-sort-slice merge yields the specified feed |
| `EventFeed.MaxSeq` | frontend/src/components/EventFeed.jsx:48 | the fold returns the start or one of the seqs, and is at least the start and every seq |
| `EventFeed.Feed.LoadInitial` | frontend/src/components/EventFeed.jsx:42-53 | the initial load shows the fetched events as they are and sets lastSeq to their largest seq (0 when none) |
| `EventFeed.Feed.Poll` | frontend/src/components/EventFeed.jsx:55-79 | a missing or empty fetch changes nothing; otherwise the feed becomes the merge and lastSeq never decreases |
| `EventFeed.Shown` | frontend/src/components/EventFeed.jsx:102-107 | the shown events are the newest of the bounded feed, max(limit, 1) of them when open and one when collapsed |
| `EventFeed.ExtractLastNumber` | frontend/src/components/EventFeed.jsx:109-112 | a match is a non-empty run of digits |
| `EventFeed.ExtractFindsTrailingNumber` | frontend/src/components/EventFeed.jsx:109-112 | for a text ending in digits and then whitespace, preceded by a non-digit, the match is exactly those digits |
| `EventFeed.NoTrailingDigitNoNumber` | frontend/src/components/EventFeed.jsx:109-112 | a text whose last non-space character is not a digit has no match |
| `EventFeed.MergedAscending` | frontend/src/components/EventFeed.jsx:61-72 | the merged feed is strictly ascending by seq, so no seq appears twice |
| `EventFeed.MergedKeepsLast` | frontend/src/components/EventFeed.jsx:61-72 | each kept event is the last entry with its seq among the shown then fetched events |
| `EventFeed.MergedKeepsNewest` | frontend/src/components/EventFeed.jsx:61-72 | any seq seen but not kept is older than every kept one |
| `EventFeed.MergedSize` | frontend/src/components/EventFeed.jsx:61-72 | the merge keeps min(15, number of distinct seqs) events |
| `GameModel.Session.constructor` | server/src/main/java/com/codeconquer/server/service/GameSessionService.java:48-68 | a new session is in the lobby, not started, order 0, idle, with nothing pending and no events |
| `GameModel.FindPlayer` | server/src/main/java/com/codeconquer/server/service/GameSessionService.java:414 | the position of the player with the id, none exactly when no player has it |
| `GameModel.FirstWithOrder` | server/src/main/java/com/codeconquer/server/service/GameSessionService.java:320 | the first player in join order holding the order, none exactly when nobody holds it |
| `GameModel.Session.PassTurnTo` | server/src/main/java/com/codeconquer/server/service/GameSessionService.java:224-230 | the six setters called whenever the turn passes: the order set, the die awaited, no challenge, dice or fork pending |
| `GameSessionService.Published` | server/src/main/java/com/codeconquer/server/service/GameSessionService.java:376-392 | publishing raises lastEventSeq by one, appends one event under the new number and touches no player |
| `GameSessionService.PublishKeepsLogConsistent` | server/src/main/java/com/codeconquer/server/service/GameSessionService.java:376-392 | the log stays numbered without gaps and its newest event carries lastEventSeq |
| `GameSessionService.PublishEvent` | server/src/main/java/com/codeconquer/server/service/GameSessionService.java:376-392 | the setters and the log append yield the specified publication |
| `GameSessionService.RenumberedIsPermutation` | server/src/main/java/com/codeconquer/server/service/GameSessionService.java:93-102 | renumbering under a strict total order hands out exactly 1..n, following that order |
| `GameSessionService.RenumberInSortedOrder` | server/src/main/java/com/codeconquer/server/service/GameSessionService.java:93-105 | the stable sort and the numbering loop yield the renumbered players, and changed tells whether anything was written |
| `GameSessionService.NumberAlong` | server/src/main/java/com/codeconquer/server/service/GameSessionService.java:94-102 | the player at the k-th sorted position gets k + 1, nothing else changes, and changed tells whether anything was written |
| `GameSessionService.NormalizedOrdersSpec` | server/src/main/java/com/codeconquer/server/service/GameSessionService.java:86-106 | afterwards the orders are exactly 1..n, ascending with the previous orders, ties in join order, and nothing but turnOrder changes |
| `GameSessionService.NormalizePermutationUnchanged` | server/src/main/java/com/codeconquer/server/service/GameSessionService.java:86-106 | orders that already are 1..n are left as they are |
| `GameSessionService.NormalizeTurnOrders` | server/src/main/java/com/codeconquer/server/service/GameSessionService.java:86-106 | the method leaves the session with the normalised players |
| `GameSessionService.RecomputedFromLobbyRollSpec` | server/src/main/java/com/codeconquer/server/service/GameSessionService.java:173-199 | the orders become 1..n with higher rolls first, players without a roll after all who rolled, equal rolls by join time and then id; nothing but turnOrder changes |
| `GameSessionService.RecomputeTurnOrderFromLobbyRoll` | server/src/main/java/com/codeconquer/server/service/GameSessionService.java:173-199 | the method leaves the session with the recomputed players |
| `GameSessionService.ComputeTiedPlayerIds` | server/src/main/java/com/codeconquer/server/service/GameSessionService.java:154-167 | the ids returned are exactly the players whose non-null roll another player shares |
| `GameSessionService.GroupByRoll` | server/src/main/java/com/codeconquer/server/service/GameSessionService.java:155-159 | each roll maps to the positions, in join order, of the players who rolled it |
| `GameSessionService.CollectTies` | server/src/main/java/com/codeconquer/server/service/GameSessionService.java:160-166 | visiting the groups in any order collects the ids of every group of two or more |
| `GameSessionService.GroupTied` | server/src/main/java/com/codeconquer/server/service/GameSessionService.java:161-164 | a player is tied exactly when its roll's group has two or more members |
| `GameSessionService.Clamp` | server/src/main/java/com/codeconquer/server/service/GameSessionService.java:219 | an order outside 1..n counts as 1; one inside stays |
| `GameSessionService.Successor` | server/src/main/java/com/codeconquer/server/service/GameSessionService.java:221-222 | the order after c wraps from n back to 1 and stays in 1..n |
| `GameSessionService.Skipped` | server/src/main/java/com/codeconquer/server/service/GameSessionService.java:269-273 | a skipped player has one skip fewer and keeps id and order |
| `GameSessionService.IndexByOrder` | server/src/main/java/com/codeconquer/server/service/GameSessionService.java:253 | each order maps to the first player in join order holding it |
| `GameSessionService.FirstWithOrderIs` | server/src/main/java/com/codeconquer/server/service/GameSessionService.java:253 | the first holder is the position holding the order with no holder before it |
| `GameSessionService.AnnounceCurrentTurn` | server/src/main/java/com/codeconquer/server/service/GameSessionService.java:310-326 | the method leaves the session as announced: one TURN_NEXT when started, unfinished and the current order is held |
| `GameSessionService.SkipOneRound` | server/src/main/java/com/codeconquer/server/service/GameSessionService.java:260-298 | one pass of the skip loop, leaving every turn order, the start flag and the status unchanged |
| `GameSessionService.SkipPlayer` | server/src/main/java/com/codeconquer/server/service/GameSessionService.java:265-286 | a skip consumes the player's turn, publishes TURN_SKIPPED and passes the turn on |
| `GameSessionService.ConsumeSkip` | server/src/main/java/com/codeconquer/server/service/GameSessionService.java:269-274 | the skipped player's record returns from jail to a non-blank return node with one skip fewer |
| `GameSessionService.SkipRoundFrame` | server/src/main/java/com/codeconquer/server/service/GameSessionService.java:259-299 | a pass of the loop changes no turn order, nor the start flag or status |
| `GameSessionService.RunSkipLoop` | server/src/main/java/com/codeconquer/server/service/GameSessionService.java:255-299 | the loop, run at most n times, yields the specified skip outcome |
| `GameSessionService.AdvanceTurnConsideringSkips` | server/src/main/java/com/codeconquer/server/service/GameSessionService.java:240-305 | the method leaves the session with skips consumed and, when any were, the next turn announced |
| `GameSessionService.AdvanceTurn` | server/src/main/java/com/codeconquer/server/service/GameSessionService.java:205-234 | the method leaves the session with the turn advanced to the next order, skips consumed and the turn announced |
| `GameSessionService.AdvancedSteps` | server/src/main/java/com/codeconquer/server/service/GameSessionService.java:205-234 | advanceTurn is normalise, pass to the successor, consider skips, announce |
| `SessionLifecycle.TryStartIfAllReady` | server/src/main/java/com/codeconquer/server/service/GameSessionService.java:108-144 | the method leaves the session as the start rule specifies |
| `SessionLifecycle.Start` | server/src/main/java/com/codeconquer/server/service/GameSessionService.java:126-138 | the orders are finalised from the lobby rolls and the fields set for the first turn |
| `SessionLifecycle.TryStartedOnlyWhenSettled` | server/src/main/java/com/codeconquer/server/service/GameSessionService.java:108-124 | nothing happens unless the lobby is settled (not finished or started, players present, all ready, all rolled, no ties); otherwise the game starts |
| `SessionLifecycle.TryStartedClosedForm` | server/src/main/java/com/codeconquer/server/service/GameSessionService.java:126-143 | the start in closed form: orders from the lobby rolls, order 1 up, the holders with skips left skipped, TURN_NEXT announced once or twice |
| `SessionLifecycle.TryStartedPlayers` | server/src/main/java/com/codeconquer/server/service/GameSessionService.java:126-143 | each player after the start is the one at that position in the starting game or it with one skip fewer, and the current order lies in 1..n |
| `SessionLifecycle.TryStartedSession` | server/src/main/java/com/codeconquer/server/service/GameSessionService.java:129-143 | after a start the game is in progress and locked, the die awaited with nothing pending, the current order in 1..n |
| `SessionLifecycle.TryStartedOrders` | server/src/main/java/com/codeconquer/server/service/GameSessionService.java:126-143 | the orders after a start are 1..n with higher lobby rolls first, and each player is the one who joined |
| `SessionLifecycle.TryStartedNoSkips` | server/src/main/java/com/codeconquer/server/service/GameSessionService.java:126-143 | in a lobby without skips order 1 is up and exactly one TURN_NEXT is published |
| `SessionLifecycle.ConfirmTurnHandover` | server/src/main/java/com/codeconquer/server/service/GameSessionService.java:404-422 | the method yields the specified outcome: the session and the error |
| `SessionLifecycle.AdvancedAfterNormalizing` | server/src/main/java/com/codeconquer/server/service/GameSessionService.java:413-421 | normalising before advanceTurn changes nothing, since advanceTurn normalises itself |
| `SessionLifecycle.HandoverSpec` | server/src/main/java/com/codeconquer/server/service/GameSessionService.java:404-422 | a handover succeeds exactly when the ids are given, the session is started, unfinished and awaiting confirmation, and the caller holds the current order; it then is advanceTurn, and a refusal leaves the session row as it was |
| `SessionLifecycle.HandlePlayerLeft` | server/src/main/java/com/codeconquer/server/service/GameSessionService.java:334-374 | the method does what handlePlayerLeft does as written: PLAYER_LEFT alone for a finished game, renumbering in the lobby, and in a started game renumbering followed by the turn holder's or another player's departure |
| `SessionLifecycle.LeaveAtTurn` | server/src/main/java/com/codeconquer/server/service/GameSessionService.java:352-360 | the turn holder's departure unlocks the phase, publishes PLAYER_LEFT and then runs advanceTurn |
| `SessionLifecycle.LeaveOther` | server/src/main/java/com/codeconquer/server/service/GameSessionService.java:361-373 | another player's departure only pulls the current order back into 1..n and publishes PLAYER_LEFT |
| `SessionLifecycle.PlayerLeftKeepsTurnInRange` | server/src/main/java/com/codeconquer/server/service/GameSessionService.java:334-374 | after anyone leaves a started game with players left, the orders are 1..n and the current order lies in 1..n, both for the code as written and for the corrected rule |
| `SessionLifecycle.PlayerLeftHandsToSuccessor` | server/src/main/java/com/codeconquer/server/service/GameSessionService.java:350-360 | under the corrected rule, when the turn holder leaves and nobody has skips, the player now holding the vacated order is up, after PLAYER_LEFT and one TURN_NEXT |
| `SessionLifecycle.PlayerLeftAsWrittenPassesOver` | server/src/main/java/com/codeconquer/server/service/GameSessionService.java:350-360 | as written, when the holder of order c leaves and nobody has skips, the turn goes to the order after c (after 1 when c is past the end), after PLAYER_LEFT and one TURN_NEXT; with two or more players left this is never the player the corrected rule picks |
| `SessionLifecycle.FinishSession` | server/src/main/java/com/codeconquer/server/service/GameSessionService.java:428-472 | both overloads' argument checks: an error leaves the session as it was, otherwise the game ends |
| `SessionLifecycle.End` | server/src/main/java/com/codeconquer/server/service/GameSessionService.java:431-444 | a finished session stays; otherwise it is finished with the winner, idle, nothing pending, GAME_FINISHED published |
| `SessionLifecycle.FinishIdempotent` | server/src/main/java/com/codeconquer/server/service/GameSessionService.java:431 | finishing twice is finishing once: the first winner stays and no second event is published |
| `SessionLifecycle.FinishedSpec` | server/src/main/java/com/codeconquer/server/service/GameSessionService.java:433-444 | the end of an unfinished game sets the fields, keeps the players, and logs one GAME_FINISHED under lastEventSeq + 1 |
| `SessionLifecycle.FinishedBlocksTurns` | server/src/main/java/com/codeconquer/server/service/GameSessionService.java:424-427 | a finished game is not in play and advanceTurn leaves it alone |
| `TurnRotation.PermutationCovers` | server/src/main/java/com/codeconquer/server/service/GameSessionService.java:86-106 | once the orders are 1..n, every order from 1 to n has a holder |
| `TurnRotation.Run` | server/src/main/java/com/codeconquer/server/service/GameSessionService.java:255-299 | the run of consecutive holders with skips left that the loop passes over is no longer than the loop's bound |
| `TurnRotation.SkipFirst` | server/src/main/java/com/codeconquer/server/service/GameSessionService.java:269-274 | skipping the first k holders keeps the number of players |
| `TurnRotation.SkipEvents` | server/src/main/java/com/codeconquer/server/service/GameSessionService.java:276-282 | k skipped turns publish exactly k TURN_SKIPPED events |
| `TurnRotation.SkipLoopClosedForm` | server/src/main/java/com/codeconquer/server/service/GameSessionService.java:255-299 | with orders 1..n, the skip loop skips the run of holders with skips left from the current order and leaves the turn with the order after them, or resets the phase when nobody is skipped |
| `TurnOutcomes.RunStops` | server/src/main/java/com/codeconquer/server/service/GameSessionService.java:263-264 | a run that ends before its bound ends at a holder with no skips left |
| `TurnOutcomes.RunHasSkips` | server/src/main/java/com/codeconquer/server/service/GameSessionService.java:263-286 | every order the run passes over has a holder with skips left |
| `TurnOutcomes.RunWhenAllSkip` | server/src/main/java/com/codeconquer/server/service/GameSessionService.java:255-299 | when every holder has skips left, the run reaches the loop's bound |
| `TurnOutcomes.FullRunAllSkip` | server/src/main/java/com/codeconquer/server/service/GameSessionService.java:255-299 | a run over all n orders means every player had skips left |
| `TurnOutcomes.SkipLoopSkipsEachAtMostOnce` | server/src/main/java/com/codeconquer/server/service/GameSessionService.java:255-299 | the loop keeps the players and their orders, and each player comes out unchanged or with exactly one skip consumed |
| `TurnOutcomes.SkipLoopSkipsTheRun` | server/src/main/java/com/codeconquer/server/service/GameSessionService.java:255-299 | a player is skipped exactly when its order lies within the run of holders with skips left from the current order |
| `TurnOutcomes.NoSkipsNotSkipped` | server/src/main/java/com/codeconquer/server/service/GameSessionService.java:263-264 | a player without skips left is never skipped |
| `TurnOutcomes.SkipLoopEvents` | server/src/main/java/com/codeconquer/server/service/GameSessionService.java:276-282 | one TURN_SKIPPED event per skipped turn, numbered on from lastEventSeq, so a consecutive log stays consecutive |
| `TurnOutcomes.SkipLoopStopsAtPlayable` | server/src/main/java/com/codeconquer/server/service/GameSessionService.java:255-299 | when some player has no skips left, the loop stops at a holder who has none and was not skipped |
| `TurnOutcomes.SkipLoopAllSkipping` | server/src/main/java/com/codeconquer/server/service/GameSessionService.java:255-299 | when every player has skips left, each is skipped exactly once, n events are published and the turn comes back to the current order |
| `TurnOutcomes.SkipLoopNoSkip` | server/src/main/java/com/codeconquer/server/service/GameSessionService.java:263-299 | when the current holder has no skips left, the loop changes nothing but a phase that holder may not keep, which becomes AWAITING_D6_ROLL, and skips nobody |
| `TurnOutcomes.InactiveUnchanged` | server/src/main/java/com/codeconquer/server/service/GameSessionService.java:205-318 | advanceTurn, advanceTurnConsideringSkips and announceCurrentTurn leave a finished or unstarted session as it is |
| `TurnOutcomes.NormalizedFrame` | server/src/main/java/com/codeconquer/server/service/GameSessionService.java:86-106 | normalising keeps the session and the log and leaves the orders a permutation of 1..n |
| `TurnOutcomes.NoSkipsNormalized` | server/src/main/java/com/codeconquer/server/service/GameSessionService.java:86-106 | normalising changes no skips |
| `TurnOutcomes.AnnouncedInRange` | server/src/main/java/com/codeconquer/server/service/GameSessionService.java:310-332 | with orders 1..n and the current order among them, announceCurrentTurn publishes one TURN_NEXT |
| `TurnOutcomes.ConsiderSkipsClosedForm` | server/src/main/java/com/codeconquer/server/service/GameSessionService.java:240-305 | advanceTurnConsideringSkips skips the run of holders with skips left from the current order and announces TURN_NEXT; with none, only the phase reset applies |
| `TurnOutcomes.ConsiderSkipsNoSkip` | server/src/main/java/com/codeconquer/server/service/GameSessionService.java:240-305 | when the current holder has no skips left and the die is awaited, advanceTurnConsideringSkips changes nothing |
| `TurnOutcomes.AdvancedClosedForm` | server/src/main/java/com/codeconquer/server/service/GameSessionService.java:205-234 | advanceTurn passes the turn to the order after the clamped current one, skips the run of holders with skips left from it, and announces TURN_NEXT once, or twice after a skip |
| `TurnOutcomes.AdvancedInRange` | server/src/main/java/com/codeconquer/server/service/GameSessionService.java:205-234 | advanceTurn keeps the orders 1..n and leaves the turn with one of them |
| `TurnOutcomes.AdvancedNoSkips` | server/src/main/java/com/codeconquer/server/service/GameSessionService.java:205-234 | when the next holder has no skips left, the turn goes to order (c mod n) + 1 (an order outside 1..n read as 1), the die is awaited, challenge, dice and fork are cleared and one TURN_NEXT is published |
| `TurnOutcomes.AdvancedSkipping` | server/src/main/java/com/codeconquer/server/service/GameSessionService.java:205-299 | when the next holder has skips left, the k consecutive holders with skips left are skipped, the turn rests k orders on, and k TURN_SKIPPED and two TURN_NEXT events are published |
| `TurnService.Required` | server/src/main/java/com/codeconquer/server/service/TurnService.java:311-321 | the lookups succeed exactly when both ids are non-blank, the session is the one asked for and the player is found in it; the result is that player's position |
| `TurnService.MyTurn` | server/src/main/java/com/codeconquer/server/service/TurnService.java:323-326 | the turn check passes exactly when the current order is above zero and the player holds it |
| `TurnService.Placed` | server/src/main/java/com/codeconquer/server/service/TurnService.java:220-224 | a null or blank position becomes START; nothing else changes |
| `TurnService.Landed` | server/src/main/java/com/codeconquer/server/service/TurnService.java:256-274 | a SPECIAL, JAIL or FINISH landing ends the turn: jail with the node as the return node, one turn to skip, or the game finished with the player as winner |
| `TurnService.Stepped` | server/src/main/java/com/codeconquer/server/service/TurnService.java:251-254 | one step moves only this player, along the single outgoing edge of its node |
| `TurnService.Walk` | server/src/main/java/com/codeconquer/server/service/TurnService.java:214-278 | a walk keeps the number of players |
| `TurnService.TurnChecked` | server/src/main/java/com/codeconquer/server/service/TurnService.java:103-115 | on success the caller's position names a player |
| `TurnService.SendToJailForOneTurn` | server/src/main/java/com/codeconquer/server/service/TurnService.java:280-290 | the player record becomes the jailed one and nothing else changes |
| `TurnService.Place` | server/src/main/java/com/codeconquer/server/service/TurnService.java:220-224 | the method puts a player without a position on START and returns the node it stands on |
| `TurnService.Step` | server/src/main/java/com/codeconquer/server/service/TurnService.java:251-254 | the method moves the player one single-edge step |
| `TurnService.Land` | server/src/main/java/com/codeconquer/server/service/TurnService.java:256-274 | the method applies the landing effect and reports whether the turn ended; otherwise the state is kept |
| `TurnService.MoveSteps` | server/src/main/java/com/codeconquer/server/service/TurnService.java:214-278 | the loop leaves the state and the stop reason of the walk |
| `TurnService.EndTurn` | server/src/main/java/com/codeconquer/server/service/TurnService.java:71-74 | the method is advanceTurn followed by advanceTurnConsideringSkips |
| `TurnService.Settle` | server/src/main/java/com/codeconquer/server/service/TurnService.java:70-99 | the method settles a walk: wait at a fork, end the turn, or open the challenge phase |
| `TurnService.CheckTurn` | server/src/main/java/com/codeconquer/server/service/TurnService.java:43-56 | the method makes the shared checks and keeps the skip loop's effect when a later check fails |
| `TurnService.WalkOn` | server/src/main/java/com/codeconquer/server/service/TurnService.java:175-211 | the method resumes the walk after a fork and settles it |
| `TurnService.RollD6` | server/src/main/java/com/codeconquer/server/service/TurnService.java:43-100 | the method leaves the game and the error as the roll rule specifies |
| `TurnService.ChoosePath` | server/src/main/java/com/codeconquer/server/service/TurnService.java:102-212 | the method leaves the game and the error as the path-choice rule specifies |
| `TurnService.Branch` | server/src/main/java/com/codeconquer/server/service/TurnService.java:131-211 | the method moves onto the chosen node and applies its landing effect or walks on |
| `TurnMoves.JailedThenSkipped` | server/src/main/java/com/codeconquer/server/service/TurnService.java:280-290 | a jailed player stands in jail, and after the skipped turn is back on the return node with no skips left: the jail lasts one turn |
| `TurnMoves.WalkAtFork` | server/src/main/java/com/codeconquer/server/service/TurnService.java:234-244 | a walk paused at a fork awaits the path choice at that fork, with between 1 and the walk's steps left and more than one way on |
| `TurnMoves.WalkPath` | server/src/main/java/com/codeconquer/server/service/TurnService.java:214-278 | a walk follows single edges only and never takes more edges than steps; leftover steps mean FINISH or a dead end |
| `TurnMoves.WalkFrame` | server/src/main/java/com/codeconquer/server/service/TurnService.java:214-278 | a walk moves nobody but the mover, and the mover keeps their id and turn order |
| `TurnMoves.WalkEffects` | server/src/main/java/com/codeconquer/server/service/TurnService.java:256-274 | a walk that finishes the game ended the turn with the player as winner; a turn ended otherwise leaves exactly one turn to skip; an uncut walk changes no skips, die value, status or events |
| `TurnMoves.ConsiderSkipsKeepsPlay` | server/src/main/java/com/codeconquer/server/service/GameSessionService.java:240-305 | the skip loop neither starts nor finishes a game |
| `TurnMoves.TurnCheckedSpec` | server/src/main/java/com/codeconquer/server/service/TurnService.java:43-56 | the shared checks pass exactly when the ids are known, the session is started and unfinished, and after the skip loop the caller holds the current order; a refusal leaves the game as the skip loop left it |
| `TurnMoves.RolledRefused` | server/src/main/java/com/codeconquer/server/service/TurnService.java:43-60 | a roll is refused unless every check passes and the die is awaited; a refused roll stores nothing and moves nobody |
| `TurnMoves.RolledAccepted` | server/src/main/java/com/codeconquer/server/service/TurnService.java:61-99 | an accepted roll walks roll steps with the roll stored and no fork pending |
| `TurnMoves.WalkedOnCases` | server/src/main/java/com/codeconquer/server/service/TurnService.java:70-99 | a fork pause waits for the choice, a landing or a stop on a FORK node ends the turn, any other walk opens the challenge phase |
| `TurnMoves.PathChosenRefused` | server/src/main/java/com/codeconquer/server/service/TurnService.java:102-129 | a choice is refused without a pending fork with steps left or when the node is not one of the fork's outgoing nodes; a refusal moves nobody |
| `TurnMoves.PathChosenAccepted` | server/src/main/java/com/codeconquer/server/service/TurnService.java:131-211 | an accepted choice is the move onto the chosen node with the pending steps |
| `TurnMoves.BranchedEndsTurn` | server/src/main/java/com/codeconquer/server/service/TurnService.java:131-163 | a SPECIAL or JAIL node chosen at a fork leaves the mover with one turn to skip, in jail with the chosen node to return to when a SPECIAL node sends them there and the board has a jail, otherwise on the chosen node; the fork is dropped, the die awaited, nobody else changed, and then the turn ends |
| `TurnMoves.BranchedWalksOn` | server/src/main/java/com/codeconquer/server/service/TurnService.java:131-179 | an ordinary node chosen at a fork uses up one step: the walk resumes from the mover standing on it with the remaining steps less one, no fork pending and nothing else changed |
| `TurnMoves.BranchedFinishes` | server/src/main/java/com/codeconquer/server/service/TurnService.java:131-172 | FINISH chosen at a fork finishes the game with the mover, standing on it, as the winner |
| `ControllerGuards.PlayerTurn` | server/src/main/java/com/codeconquer/server/controller/ChallengeController.java:101-116 | 400 unless the session and player are known and belong together, 409 unless the game runs, 403 unless the player holds the current order; on success the player's position |
| `ChallengeRouting.CategoryOrdinal` | server/src/main/java/com/codeconquer/server/service/ChallengeRouterService.java:24 | a category's ordinal is its position in declaration order, the order the EnumMap keeps |
| `ChallengeRouting.CategoryOf` | server/src/main/java/com/codeconquer/server/controller/ChallengeController.java:73-79 | valueOf finds the category with exactly that name, and fails when no category has it |
| `ChallengeRouting.Level` | server/src/main/java/com/codeconquer/server/service/ChallengeRouterService.java:79-85 | the level parameter is 1 exactly for EASY and 3 exactly for HARD, and otherwise 2 |
| `ChallengeRouting.KeysFrom` | server/src/main/java/com/codeconquer/server/service/ChallengeRouterService.java:63 | the key list holds only routed categories, in strictly increasing declaration order |
| `ChallengeRouting.Without` | server/src/main/java/com/codeconquer/server/service/ChallengeRouterService.java:66 | removeIf leaves only elements of the list other than the one removed |
| `ChallengeRouting.ChallengeRouterService.constructor` | server/src/main/java/com/codeconquer/server/service/ChallengeRouterService.java:26-31 | the four categories are routed to /stackmaze, /graphpath, /bstinsert and /queuecommander |
| `ChallengeRouting.ChallengeRouterService.PickRandomCategory` | server/src/main/java/com/codeconquer/server/service/ChallengeRouterService.java:62-70 | the method draws from the keys without the excluded one when two or more are routed |
| `ChallengeRouting.ChallengeRouterService.PickRandom` | server/src/main/java/com/codeconquer/server/service/ChallengeRouterService.java:33-60 | the method returns the descriptor or error the pick rule specifies |
| `ChallengeRouting.KeysFromComplete` | server/src/main/java/com/codeconquer/server/service/ChallengeRouterService.java:63 | every routed category is among the keys |
| `ChallengeRouting.WithoutKeeps` | server/src/main/java/com/codeconquer/server/service/ChallengeRouterService.java:66 | removeIf keeps every element other than the removed one |
| `ChallengeRouting.CategoryNameRoundTrip` | server/src/main/java/com/codeconquer/server/controller/ChallengeController.java:75-85 | valueOf(name()) recovers the category, so the remembered category is the one avoided next time |
| `ChallengeRouting.DefaultKeysAreAll` | server/src/main/java/com/codeconquer/server/service/ChallengeRouterService.java:26-31 | with the configured routes the candidates are all four categories in declaration order |
| `ChallengeRouting.WithoutLeavesOne` | server/src/main/java/com/codeconquer/server/service/ChallengeRouterService.java:65-67 | removing one category from two or more distinct ones leaves a candidate |
| `ChallengeRouting.CandidatesAreRouted` | server/src/main/java/com/codeconquer/server/service/ChallengeRouterService.java:62-67 | the candidates are routed categories; when two or more are routed none of them is the excluded one; they are empty exactly when nothing is routed |
| `ChallengeRouting.DrawAvoidsExcluded` | server/src/main/java/com/codeconquer/server/service/ChallengeRouterService.java:62-70 | a draw fails exactly when nothing is routed, yields a routed category, and never the excluded one when two or more are routed |
| `ChallengeRouting.EveryCandidateDrawable` | server/src/main/java/com/codeconquer/server/service/ChallengeRouterService.java:68-69 | every candidate is drawn by some random number |
| `ChallengeRouting.DefaultRoutesAlwaysPick` | server/src/main/java/com/codeconquer/server/service/ChallengeRouterService.java:33-60 | with the configured routes a difficulty always yields a descriptor for the asked-for category or another than the excluded one, with its route and the difficulty's parameters (every Category constant being one of the four routed ones) |
| `ChallengeRouting.DifficultyIsRequired` | server/src/main/java/com/codeconquer/server/service/ChallengeRouterService.java:34-36 | pickRandom without a difficulty fails |
| `ChallengeRouting.UnroutedCategoryFails` | server/src/main/java/com/codeconquer/server/service/ChallengeRouterService.java:39-47 | an asked-for category fails exactly when it has no route; a drawn one never does |
| `ChallengeController.ChallengeTurn` | server/src/main/java/com/codeconquer/server/controller/ChallengeController.java:101-122 | the guards of every controller, then 423 exactly when the turn status is set and not IDLE |
| `ChallengeController.BasePointsFor` | server/src/main/java/com/codeconquer/server/controller/ChallengeController.java:169-176 | 5 points per difficulty level (5, 10, 15), none without a difficulty |
| `ChallengeController.ExcludeOf` | server/src/main/java/com/codeconquer/server/controller/ChallengeController.java:152-159 | a category is avoided exactly when the remembered name is not blank and names one, and it is the one named |
| `ChallengeController.NodeDifficulty` | server/src/main/java/com/codeconquer/server/controller/ChallengeController.java:124-133 | EASY, MEDIUM and HARD fields give their own difficulty, FORK gives MEDIUM, every other or missing position none |
| `ChallengeController.Start` | server/src/main/java/com/codeconquer/server/controller/ChallengeController.java:146-166 | the method locks the turn and opens the challenge as specified |
| `ChallengeController.ForTurn` | server/src/main/java/com/codeconquer/server/controller/ChallengeController.java:95-167 | the method leaves the game and the response as the forTurn rule specifies |
| `ChallengeController.Random` | server/src/main/java/com/codeconquer/server/controller/ChallengeController.java:35-88 | the method leaves the game and the response as the random rule specifies |
| `ChallengeRules.RefusalsChangeNothing` | server/src/main/java/com/codeconquer/server/controller/ChallengeController.java:42-64 | a refused request of either endpoint leaves the game as it was |
| `ChallengeRules.ForTurnRefusals` | server/src/main/java/com/codeconquer/server/controller/ChallengeController.java:101-133 | forTurn refuses exactly as the guards say, and with 409 also off the challenge fields; random refuses exactly as the guards say |
| `ChallengeRules.OneChallengePerTurn` | server/src/main/java/com/codeconquer/server/controller/ChallengeController.java:59-70 | once random started a challenge, every further request of either endpoint in that turn is refused, with 423 for the player whose turn it is |
| `ChallengeRules.OneChallengePerTurnForTurn` | server/src/main/java/com/codeconquer/server/controller/ChallengeController.java:118-150 | the same after forTurn |
| `ChallengeRules.StartedFacts` | server/src/main/java/com/codeconquer/server/controller/ChallengeController.java:146-166 | the turn is locked to the instance id, the descriptor carries it and its difficulty's points, the player remembers the category, nothing else changes |
| `ChallengeRules.DefaultRoutesOpen` | server/src/main/java/com/codeconquer/server/controller/ChallengeController.java:146-166 | with the configured routes a request past the guards opens a challenge (every Category constant being one of the four routed ones) |
| `ChallengeRules.NoRepeatTwice` | server/src/main/java/com/codeconquer/server/controller/ChallengeController.java:152-165 | with no category asked for, the category drawn is never the player's last one, and becomes the one to avoid next |
| `ChallengeRules.DowngradeCases` | server/src/main/java/com/codeconquer/server/controller/ChallengeController.java:135-144 | a HARD field becomes EASY with the SHORTCUT_FOUND flag, else MEDIUM with the REFACTOR flag; the flag used is cleared, the other kept; other difficulties are untouched |
| `ChallengeRules.ForTurnPlaysNodeDifficulty` | server/src/main/java/com/codeconquer/server/controller/ChallengeController.java:124-166 | forTurn's descriptor has the node's difficulty after the downgrade and its points, and the downgrade stays used even when the router fails |
| `ChallengeRules.RandomPlaysRequested` | server/src/main/java/com/codeconquer/server/controller/ChallengeController.java:66-87 | random plays the requested difficulty and leaves the downgrade flags alone |
| `ChallengeRules.NoChallengeOffTheFields` | server/src/main/java/com/codeconquer/server/controller/ChallengeController.java:125-133 | START, JAIL, SPECIAL, FINISH and unknown or missing positions host no challenge: forTurn answers 409 |
| `ChallengeService.DropSpaces` | server/src/main/java/com/codeconquer/server/service/ChallengeService.java:36 | dropping leading white space shortens the string, keeps its last non-space character, and leaves no leading white space |
| `ChallengeService.Collapse` | server/src/main/java/com/codeconquer/server/service/ChallengeService.java:36 | collapsing white space keeps the first and last characters (a space for a white-space run) and never lengthens the string |
| `ChallengeService.CollapseIsCollapsed` | server/src/main/java/com/codeconquer/server/service/ChallengeService.java:36 | after replaceAll no two white-space characters are adjacent and every one is a space |
| `ChallengeService.Normalize` | server/src/main/java/com/codeconquer/server/service/ChallengeService.java:34-37 | null normalises to ""; the result has no padding, no doubled or non-space white space, and no upper-case letter |
| `ChallengeService.CollapseFixed` | server/src/main/java/com/codeconquer/server/service/ChallengeService.java:36 | a collapsed string is left as it is |
| `ChallengeService.LowerFixed` | server/src/main/java/com/codeconquer/server/service/ChallengeService.java:36 | lower-casing a string without upper-case letters changes nothing |
| `ChallengeService.NormalizeIdempotent` | server/src/main/java/com/codeconquer/server/service/ChallengeService.java:34-37 | normalising twice is normalising once |
| `ChallengeService.NormalizeIgnoresCase` | server/src/main/java/com/codeconquer/server/service/ChallengeService.java:34-37 | normalize treats upper and lower case alike |
| `ChallengeService.CollapseDoubledSpace` | server/src/main/java/com/codeconquer/server/service/ChallengeService.java:36 | a doubled white-space character inside a string collapses as a single one does |
| `ChallengeService.NormalizeIgnoresPadding` | server/src/main/java/com/codeconquer/server/service/ChallengeService.java:34-37 | white space around the answer does not matter |
| `ChallengeService.NormalizeIgnoresDoubledSpace` | server/src/main/java/com/codeconquer/server/service/ChallengeService.java:34-37 | a doubled white-space character between words does not matter |
| `ChallengeService.CheckAnswerAcceptsShouting` | server/src/main/java/com/codeconquer/server/service/ChallengeService.java:21-28 | the expected answer typed in upper case and padded with white space is accepted |
| `ChallengeService.CheckAnswerEquivalence` | server/src/main/java/com/codeconquer/server/service/ChallengeService.java:21-28 | checking answers is reflexive, symmetric and transitive |
| `SpecialCardTypes.Ordinal` | server/src/main/java/com/codeconquer/server/model/SpecialCardType.java:6-14 | a card's ordinal is its position in the declaration order |
| `SpecialCardTypes.PositivesFrom` | server/src/main/java/com/codeconquer/server/model/SpecialCardType.java:16-21 | the positive cards of a list are positive and no more than the list holds |
| `SpecialCardTypes.DeckIsClosed` | server/src/main/java/com/codeconquer/server/model/SpecialCardType.java:6-14 | the deck holds every card exactly once, eight in all |
| `SpecialCardTypes.FourPositive` | server/src/main/java/com/codeconquer/server/model/SpecialCardType.java:16-21 | the positive cards are exactly REFACTOR, SECOND_CHANCE, SHORTCUT_FOUND and BOOST |
| `SpecialCardController.CardTurn` | server/src/main/java/com/codeconquer/server/controller/SpecialCardController.java:52-72 | the guards of every controller, then 423 exactly when no special card is awaited |
| `SpecialCardController.TargetOf` | server/src/main/java/com/codeconquer/server/controller/SpecialCardController.java:156-165 | a target is found exactly when the id is not blank and names a player of the same session |
| `SpecialCardController.Swapped` | server/src/main/java/com/codeconquer/server/controller/SpecialCardController.java:94-103 | RAGE_BAIT changes only the two players' positions |
| `SpecialCardController.EndCardTurn` | server/src/main/java/com/codeconquer/server/controller/SpecialCardController.java:149-153 | the method awaits the die and runs advanceTurn |
| `SpecialCardController.BoostOneStep` | server/src/main/java/com/codeconquer/server/controller/SpecialCardController.java:184-221 | the method moves the player as the boost rule specifies |
| `SpecialCardController.BoostLand` | server/src/main/java/com/codeconquer/server/controller/SpecialCardController.java:210-218 | the method applies the BOOST landing |
| `SpecialCardController.SwapPositions` | server/src/main/java/com/codeconquer/server/controller/SpecialCardController.java:94-103 | the method exchanges the two positions |
| `SpecialCardController.ApplyEffect` | server/src/main/java/com/codeconquer/server/controller/SpecialCardController.java:87-147 | the method applies the card's effect or reports the stop |
| `SpecialCardController.Apply` | server/src/main/java/com/codeconquer/server/controller/SpecialCardController.java:43-154 | the method leaves the game and the response as the apply rule specifies |
| `SpecialCardController.IgnorePositive` | server/src/main/java/com/codeconquer/server/controller/SpecialCardController.java:75-84 | the method clears the flag, logs SPECIAL_IGNORED and ends the turn |
| `SpecialCardController.Resolve` | server/src/main/java/com/codeconquer/server/controller/SpecialCardController.java:86-153 | the method applies the effect and, unless it stopped, logs SPECIAL and ends the turn |
| `SpecialCardRules.EffectStops` | server/src/main/java/com/codeconquer/server/controller/SpecialCardController.java:87-147 | an effect stops exactly when a targeted card lacks a valid target or BOOST stands on a fork without a valid choice, and then changes nothing |
| `SpecialCardRules.UnresolvedChangesNothing` | server/src/main/java/com/codeconquer/server/controller/SpecialCardController.java:43-154 | apply is refused exactly when its guards fail; a refusal, an exception or the BOOST prompt leaves the game as it was |
| `SpecialCardRules.PositiveCardIgnored` | server/src/main/java/com/codeconquer/server/controller/SpecialCardController.java:74-84 | a positive card against a set flag has no effect: the flag is cleared, SPECIAL_IGNORED logged and the turn ends |
| `SpecialCardRules.IgnoredClearsFlag` | server/src/main/java/com/codeconquer/server/controller/SpecialCardController.java:75-78 | an ignored card clears the flag and logs SPECIAL_IGNORED, nothing else |
| `SpecialCardRules.IgnoredOnlyWhenPositive` | server/src/main/java/com/codeconquer/server/controller/SpecialCardController.java:74-84 | a card is ignored exactly when it is positive and the flag is set |
| `SpecialCardRules.PermissionDeniedArmsTarget` | server/src/main/java/com/codeconquer/server/controller/SpecialCardController.java:88-93 | PERMISSION_DENIED sets the target's flag, and nothing else changes but the event |
| `SpecialCardRules.TargetedCardNeedsTarget` | server/src/main/java/com/codeconquer/server/controller/SpecialCardController.java:156-165 | PERMISSION_DENIED, RAGE_BAIT and ROLLBACK throw exactly when the target is missing, unknown or of another session, changing nothing |
| `SpecialCardRules.RageBaitSwapsPositions` | server/src/main/java/com/codeconquer/server/controller/SpecialCardController.java:94-103 | each player stands where the other stood; all else unchanged |
| `SpecialCardRules.RageBaitTwiceRestores` | server/src/main/java/com/codeconquer/server/controller/SpecialCardController.java:94-103 | swapping twice restores both positions; swapping with oneself changes nothing |
| `SpecialCardRules.SelfCardArmsFlag` | server/src/main/java/com/codeconquer/server/controller/SpecialCardController.java:104-118 | REFACTOR, SECOND_CHANCE and SHORTCUT_FOUND set the actor's own flag and move nobody |
| `SpecialCardRules.JailCardJails` | server/src/main/java/com/codeconquer/server/controller/SpecialCardController.java:119-124 | ROLLBACK jails the target and JAIL the actor: one turn to skip and, with a jail on the board, a stay there with the previous position to return to |
| `SpecialCardRules.BoostCases` | server/src/main/java/com/codeconquer/server/controller/SpecialCardController.java:184-221 | BOOST moves one step along the single edge or the valid fork choice, offers the fork's options without a choice, and stays put without a position or edges |
| `SpecialCardRules.BoostLandedSpec` | server/src/main/java/com/codeconquer/server/controller/SpecialCardController.java:212-218 | a BOOST onto JAIL costs a turn, onto FINISH ends the game with the player as winner |
| `SpecialCardRules.BoostMovesOneStep` | server/src/main/java/com/codeconquer/server/controller/SpecialCardController.java:192-210 | a BOOST step that is taken goes exactly one edge along |
| `SpecialCardRules.BoostOptionsAreEdges` | server/src/main/java/com/codeconquer/server/controller/SpecialCardController.java:195-199 | each option offered at a fork leads along one of its edges, and each edge is offered |
| `SpecialCardRules.CardEndAwaitsRoll` | server/src/main/java/com/codeconquer/server/controller/SpecialCardController.java:149-152 | every resolved card leaves the die awaited |
| `SpecialCardRules.ResolvedAwaitsRoll` | server/src/main/java/com/codeconquer/server/controller/SpecialCardController.java:74-153 | after a resolved card no special card is awaited any more |
| `ScoreService.ScoreCheck` | server/src/main/java/com/codeconquer/server/service/ScoreService.java:28-59 | the checks pass exactly when the ids are given and known, the game runs, the player holds the current order and the challenge id matches the active one; never outside IN_CHALLENGE |
| `ScoreService.ExpectedBasePoints` | server/src/main/java/com/codeconquer/server/service/ScoreService.java:110-119 | 5, 10 or 15 for the trimmed, upper-cased EASY, MEDIUM or HARD, otherwise (or for null) 0 |
| `ScoreService.SavedPoints` | server/src/main/java/com/codeconquer/server/service/ScoreService.java:65-70 | a positive claim becomes its difficulty's base when that is known; anything else stays; a positive claim stays positive |
| `ScoreService.ScoreSaved` | server/src/main/java/com/codeconquer/server/service/ScoreService.java:27-88 | a refused score changes nothing and reports the failed check |
| `ScoreService.SaveScore` | server/src/main/java/com/codeconquer/server/service/ScoreService.java:27-88 | the method leaves the game and the result as the saveScore rule specifies |
| `ScoreService.ScoreSavedSteps` | server/src/main/java/com/codeconquer/server/service/ScoreService.java:61-88 | a saved score is the total updated and the lock released, then advanceTurn, then advanceTurnConsideringSkips |
| `ScoreService.PaddedDifficultyBase` | server/src/main/java/com/codeconquer/server/service/ScoreService.java:110-119 | any spelling of EASY, MEDIUM or HARD, in any case and padded on either side, gives that difficulty's base |
| `ScoreService.AdvancingKeepsTotals` | server/src/main/java/com/codeconquer/server/service/GameSessionService.java:205-305 | turn advancement never touches a total or an id |
| `ScoreService.SavedScoreAddsToTotal` | server/src/main/java/com/codeconquer/server/service/ScoreService.java:72-75 | a saved score raises the submitting player's total by exactly the saved points and leaves every other total as it was |
| `ScoreService.AdvancingKeepsUnlocked` | server/src/main/java/com/codeconquer/server/service/GameSessionService.java:205-305 | advancing a turn that awaits the die with no challenge keeps it so |
| `ScoreService.SavedScoreUnlocks` | server/src/main/java/com/codeconquer/server/service/ScoreService.java:77-85 | after a saved score the die is awaited with no challenge active, so the same submission is refused a second time |
| `PlayerService.FindByName` | server/src/main/java/com/codeconquer/server/service/PlayerService.java:40 | the first player of the session whose name matches ignoring case, or none exactly when no player matches |
| `PlayerService.Registered` | server/src/main/java/com/codeconquer/server/service/PlayerService.java:25-49 | refused exactly when an id or the name is blank or the session is unknown, changing nothing; otherwise a player of that session with the trimmed name, and the session and log untouched |
| `PlayerService.RegisterPlayer` | server/src/main/java/com/codeconquer/server/service/PlayerService.java:25-49 | the method leaves the game and the result as the registration rule specifies |
| `PlayerService.EqualsIgnoreCaseSymmetric` | server/src/main/java/com/codeconquer/server/service/PlayerService.java:40 | matching names ignoring case is symmetric |
| `PlayerService.EqualsIgnoreCaseTransitive` | server/src/main/java/com/codeconquer/server/service/PlayerService.java:40 | matching names ignoring case is transitive |
| `PlayerService.NewPlayerStored` | server/src/main/java/com/codeconquer/server/service/PlayerService.java:43-48 | a new player is appended with the trimmed name, the session id, no turn order and a zero score |
| `PlayerService.ExistingNameReturned` | server/src/main/java/com/codeconquer/server/service/PlayerService.java:38-41 | a name already taken in the session, in any case, returns that player and stores nothing |
| `PlayerService.RegisterKeepsNamesDistinct` | server/src/main/java/com/codeconquer/server/service/PlayerService.java:38-48 | registration keeps the names of a session distinct ignoring case |
| `PlayerService.RegisterIdempotent` | server/src/main/java/com/codeconquer/server/service/PlayerService.java:25-49 | registering again under the same name, in any case and padding, returns the same player and changes nothing |
| `Ranking.Range` | server/src/main/java/com/codeconquer/server/service/GameSessionService.java:191-197 | the positions 0..n-1 in order |
| `Ranking.PermutationOfRange` | server/src/main/java/com/codeconquer/server/service/GameSessionService.java:181-190 | a reordering of the positions holds each position exactly once |
| `Ranking.PositionIsRank` | server/src/main/java/com/codeconquer/server/service/GameSessionService.java:181-197 | sorting the positions keeps each exactly once, and the place a player is sorted to is its rank |
| `Ranking.RankIsPermutation` | server/src/main/java/com/codeconquer/server/service/GameSessionService.java:181-197 | the numbers handed out are 0..n-1 (plus one), each once, and follow the comparator |
| `Ranking.SortedPositionsIncrease` | server/src/main/java/com/codeconquer/server/service/GameSessionService.java:181-197 | along the sorted positions the comparator holds strictly and every position appears |
| `Ranking.StrictlyIncreasingFill` | server/src/main/java/com/codeconquer/server/service/GameSessionService.java:191-197 | a strictly increasing run of m integers from lo..lo+m-1 is exactly lo, lo+1, ... |
| `Sorting.InsertBy` | server/src/main/java/com/codeconquer/server/service/GameSessionService.java:93 | inserting adds exactly the one element |
| `Sorting.SortBy` | server/src/main/java/com/codeconquer/server/service/GameSessionService.java:93 | sorting keeps the elements: the result is a permutation |
| `Sorting.InsertBySorted` | server/src/main/java/com/codeconquer/server/service/GameSessionService.java:93 | inserting into an ordered list keeps it ordered |
| `Sorting.SortBySorted` | server/src/main/java/com/codeconquer/server/service/GameSessionService.java:93 | the sorted list is ordered |
| `Sorting.ClassOf` | server/src/main/java/com/codeconquer/server/service/GameSessionService.java:93 | a class of equal elements has no more elements than the list |
| `Sorting.SortByStable` | server/src/main/java/com/codeconquer/server/service/GameSessionService.java:93 | within each class of equal elements the sorted order is the original order |
| `JavaStrings.TrimLeft` | server/src/main/java/com/codeconquer/server/service/PlayerService.java:38 | a suffix that does not start with a trimmable character, everything dropped being trimmable |
| `JavaStrings.TrimRight` | server/src/main/java/com/codeconquer/server/service/PlayerService.java:38 | a prefix that does not end with a trimmable character, everything dropped being trimmable |
| `JavaStrings.Trim` | server/src/main/java/com/codeconquer/server/service/PlayerService.java:38 | trim neither starts nor ends with a trimmable character and never lengthens |
| `JavaStrings.TrimIdentity` | server/src/main/java/com/codeconquer/server/service/PlayerService.java:38 | a string without padding is left as it is |
| `JavaStrings.TrimIgnoresPadding` | server/src/main/java/com/codeconquer/server/service/PlayerService.java:38 | trimmable padding on either side is exactly what trim removes |
| `JavaStrings.ToLower` | server/src/main/java/com/codeconquer/server/service/ChallengeService.java:36 | lower-casing maps each character on its own and keeps the length |
| `JavaStrings.ToUpper` | server/src/main/java/com/codeconquer/server/service/ScoreService.java:112 | upper-casing maps each character on its own and keeps the length |
| `JavaStrings.StrLessIrreflexive` | server/src/main/java/com/codeconquer/server/service/GameSessionService.java:186 | compareTo's order puts no id before itself |
| `JavaStrings.StrLessTransitive` | server/src/main/java/com/codeconquer/server/service/GameSessionService.java:186 | compareTo's order is transitive |
| `JavaStrings.StrLessTotal` | server/src/main/java/com/codeconquer/server/service/GameSessionService.java:186 | two different ids are always ordered one way or the other |

## Left out

- Randomness is not modelled. Dice rolls, UUIDs, join codes, random picks, shuffles, maze walls and queue schedules are all parameters (a number drawn in [0, 1) or the value itself). `random.nextInt(6) + 1` is the `roll` parameter of `TurnService.RollD6`, which requires it to lie in 1..6.
- Persistence and transport are not modelled: the JPA repositories, entity classes, HTTP controllers that only forward calls, the JSON reading of the board and of the challenge catalogue, and timestamps.
- The model keeps one sequential state. Each service saves its own reloaded copy (stale copies), and lost updates between those copies are not reproduced. Concurrent requests are not modelled either.
- Only one session is modelled. A session id other than the modelled session's is treated as a session that is not found. Players of other sessions are absent.
- Behaviour that the shown sources call but do not contain is not modelled:
  - the lobby d20 roll and setReady;
  - removePlayer, the caller that would reach handlePlayerLeft;
  - the consumption of nextDiceAdvantage;
  - any code that sets AWAITING_SPECIAL_CARD.
- `ScoreService.SavedScoreAddsToTotal`: addToTotalScore is not part of this model. It is read, by its name, as adding the points to the player's total.
- `PlayerService.Registered`: a new player's fields other than id, sessionId, name, createdAt, turn order 0 and score 0 are left at the model's defaults.
- Event messages are not modelled. Events are type tags with sequence numbers, without their German and emoji texts or formatEvent's regexes.
- Case mapping and white space are ASCII only. Unicode case folding is not modelled.
- Floating point is replaced by exact reals in scoring.js and the wall density. Math.round is floor(x + 1/2).
- The graph pathfinder's makeGraph is not modelled: node placement, sqrt distances, the closeness percentage and mulberry32. The graph is a parameter: a simple edge list with weights 1..9.
- The BST page's pixel layout (x and y positions) is not modelled. Its layout keeps the inorder column and the depth.
- Timers, sounds, haptics, fog rendering and all React rendering are not modelled.
- StackDropPage and BitJumperPage are not modelled. Both are real-time loops and physics.
- `BstInsert.Insert`: bstInsert links the new node into the existing tree in place. The model rebuilds the tree as a value, so sharing between the old and new tree is not captured.
- `PathGraph.KeyOf`: the "lo-hi" text key is modelled as the ordered pair it spells.
- `MazeGrid.Neighbours`: the "r,c" text keys of the seen set are modelled as cell values.
- `StackMaze.SimulatePath`: simulatePath's size argument is taken to be the grid's own size, which is how every call site passes it.
- `StackMaze.StepOnce`: stepOnce's bounds check uses the page's `size` (StackMazePage.jsx:318); the model reads it as the grid's own size `|g.grid|`, which holds because the grid is built from that `size`.
- `StackMaze.Settle`: the `goal` corner uses the page's `size` (StackMazePage.jsx:251); the model reads it as `|g.grid|`, for the same reason.
- `PathfinderGame.Checked`: the page declares an "invalid" status, but no handler sets it, so it is absent.
- `ChallengeRouting.Category`: Category.java is not part of this model. The enum is taken to have exactly the four constants the router configures (STACK_MAZE, GRAPH_PATH, BST_INSERT, QUEUE_COMMANDER). A constant without a route would make pickRandom throw when it is asked for, as `ChallengeRouting.UnroutedCategoryFails` states for any route map.
- `ChallengeRouting.DefaultRoutesAlwaysPick`: holds only under the four-constant assumption about Category. If the enum has further constants, a request naming one of them fails with "No route configured".
- `ChallengeRules.DefaultRoutesOpen`: rests on the same four-constant assumption about Category. A request naming an unrouted constant would be answered with the router's error instead of opening a challenge.
- `QueueCommander.NextLevel`: newLevel's seed is modelled as fresh draws for the shuffle and the schedule.
- Message texts and timers are not modelled.
- `QueueCommander.Enqueue`: the page's state is React state. Each handler returns a new state value instead of updating fields in place.
- `SessionLifecycle.HandlePlayerLeft`: no caller appears in the shown sources. The method follows the code as written; the corrected rule `SessionLifecycle.Left` is stated beside it and is not called.
- Integer width is not modelled. Java `int` and `long` counters (turn orders, skip counts, scores, lastEventSeq) and JavaScript numbers are unbounded integers here, so wrap-around and precision loss are not captured.
- `EventFeed.Feed.LoadInitial`: the initial fetch is taken as a list of events without null entries. Null entries are modelled in the poll merge and in the seq fold, but not in the stored list that loadInitial keeps as it is.

## Findings

| source | as written | input that shows it | evidently intended | confidence | as-written member | corrected member |
|---|---|---|---|---|---|---|
| server/src/main/java/com/codeconquer/server/service/GameSessionService.java:350-360 | when the turn holder leaves, the orders are renumbered first and advanceTurn then steps from the vacated order c to c + 1, passing over the player who has just moved down into order c | players a, b, c at orders 1, 2, 3; b leaves while it is b's turn; c is renumbered to 2 and advanceTurn moves the turn from order 2 to 2 mod 2 + 1 = 1, so a plays | the turn goes to c, the player who came after the leaver | not executed | `SessionLifecycle.PlayerLeftAsWrittenPassesOver` | `SessionLifecycle.PlayerLeftHandsToSuccessor` |
