/**
 * Choosing a minigame (ChallengeRouterService): a category is taken as asked for or drawn at
 * random among the routed categories, avoiding the one the player played last when another is
 * available, and described together with its frontend route and its per-difficulty parameters.
 * The random draw and the random descriptor id are parameters.
 */
module ChallengeRouting {
  import opened Wrappers

  datatype Difficulty = Easy | Medium | Hard

  /** The minigames, in the declaration order of the Category enum. */
  datatype Category = StackMaze | GraphPath | BstInsert | QueueCommander

  const AllCategories: seq<Category> := [StackMaze, GraphPath, BstInsert, QueueCommander]

  /** ordinal(): the position of a category in declaration order. */
  function CategoryOrdinal(c: Category): (r: nat)
    ensures r < |AllCategories| && AllCategories[r] == c
  {
    match c
    case StackMaze => 0
    case GraphPath => 1
    case BstInsert => 2
    case QueueCommander => 3
  }

  /** name(): the enum constant's name. */
  function CategoryName(c: Category): string
  {
    match c
    case StackMaze => "STACK_MAZE"
    case GraphPath => "GRAPH_PATH"
    case BstInsert => "BST_INSERT"
    case QueueCommander => "QUEUE_COMMANDER"
  }

  /** valueOf: the category whose name is exactly s; a name of none (an exception) is None. */
  function CategoryOf(s: string): (r: Option<Category>)
    ensures r.Some? ==> CategoryName(r.value) == s
    ensures r.None? ==> forall c :: CategoryName(c) != s
  {
    if s == "STACK_MAZE" then Some(StackMaze)
    else if s == "GRAPH_PATH" then Some(GraphPath)
    else if s == "BST_INSERT" then Some(BstInsert)
    else if s == "QUEUE_COMMANDER" then Some(QueueCommander)
    else None
  }

  function DifficultyName(d: Difficulty): string
  {
    match d
    case Easy => "EASY"
    case Medium => "MEDIUM"
    case Hard => "HARD"
  }

  /** The "level" parameter of defaultParamsFor: 1, 2 and 3 for EASY, MEDIUM and HARD. */
  function Level(d: Difficulty): (r: int)
    ensures 1 <= r <= 3
    ensures d.Easy? <==> r == 1
    ensures d.Hard? <==> r == 3
  {
    match d
    case Easy => 1
    case Medium => 2
    case Hard => 3
  }

  /** The parameter map of defaultParamsFor: level, difficulty name and category name. */
  datatype Params = Params(level: int, difficulty: string, category: string)

  /**
   * What the frontend should open. The challenge instance id and the base points are
   * filled in by the controller after the router built the descriptor.
   */
  datatype ChallengeDescriptor = ChallengeDescriptor(
    id: string,
    challengeInstanceId: Option<string>,
    category: Category,
    difficulty: Difficulty,
    basePoints: Option<int>,
    route: string,
    params: Params)

  /** The routes the constructor configures: every category has its own page. */
  const DefaultRoutes: map<Category, string> :=
    map[StackMaze := "/stackmaze", GraphPath := "/graphpath", BstInsert := "/bstinsert",
        QueueCommander := "/queuecommander"]

  /**
   * "difficulty is required" (IllegalArgumentException), "No route configured for category"
   * (IllegalStateException), and nextInt on an empty candidate list (IllegalArgumentException).
   */
  datatype RouterError = DifficultyRequired | NoRouteFor(category: Category) | NoCategory

  /** keySet() of the EnumMap from position i of the declaration order on: the routed categories, in that order. */
  function KeysFrom(routes: map<Category, string>, i: nat): (r: seq<Category>)
    requires i <= |AllCategories|
    ensures forall j :: 0 <= j < |r| ==> r[j] in routes && i <= CategoryOrdinal(r[j])
    ensures forall a, b :: 0 <= a < b < |r| ==> CategoryOrdinal(r[a]) < CategoryOrdinal(r[b])
    decreases |AllCategories| - i
  {
    if i == |AllCategories| then []
    else (if AllCategories[i] in routes then [AllCategories[i]] else []) + KeysFrom(routes, i + 1)
  }

  function Keys(routes: map<Category, string>): seq<Category>
  {
    KeysFrom(routes, 0)
  }

  /** removeIf(c -> c == x): cs without x, the rest in order. */
  function Without(cs: seq<Category>, x: Category): (r: seq<Category>)
    ensures forall j :: 0 <= j < |r| ==> r[j] != x && r[j] in cs
  {
    if |cs| == 0 then []
    else (if cs[0] == x then [] else [cs[0]]) + Without(cs[1..], x)
  }

  /** The list pickRandomCategory draws from: the excluded category is dropped only when there are two or more. */
  function Candidates(routes: map<Category, string>, exclude: Option<Category>): seq<Category>
  {
    var all := Keys(routes);
    if exclude.Some? && |all| > 1 then Without(all, exclude.value) else all
  }

  /** pickRandomCategory, where draw stands for the random number, reduced to the list's size as nextInt does. */
  function PickedCategory(routes: map<Category, string>, exclude: Option<Category>, draw: nat): Result<Category, RouterError>
  {
    var cands := Candidates(routes, exclude);
    if |cands| == 0 then Err(NoCategory) else Ok(cands[draw % |cands|])
  }

  /** pickRandom: the descriptor of the asked-for or drawn category, with descriptorId as its random id. */
  function Picked(routes: map<Category, string>, difficulty: Option<Difficulty>, category: Option<Category>,
                  exclude: Option<Category>, draw: nat, descriptorId: string): Result<ChallengeDescriptor, RouterError>
  {
    if difficulty.None? then Err(DifficultyRequired)
    else
      var chosen := if category.Some? then Ok(category.value) else PickedCategory(routes, exclude, draw);
      if chosen.Err? then Err(chosen.error)
      else if chosen.value !in routes then Err(NoRouteFor(chosen.value))
      else
        var c := chosen.value;
        var d := difficulty.value;
        Ok(ChallengeDescriptor(descriptorId, None, c, d, None, routes[c],
          Params(Level(d), DifficultyName(d), CategoryName(c))))
  }

  /** The router: its route table is filled once, by the constructor, and only read afterwards. */
  class ChallengeRouterService {
    var categoryToRoute: map<Category, string>

    constructor ()
      ensures categoryToRoute == DefaultRoutes
    {
      categoryToRoute := DefaultRoutes;
    }

    method PickRandomCategory(exclude: Option<Category>, draw: nat) returns (r: Result<Category, RouterError>)
      ensures r == PickedCategory(categoryToRoute, exclude, draw)
    {
      var all := Keys(categoryToRoute);
      if exclude.Some? && |all| > 1 {
        all := Without(all, exclude.value);
      }
      if |all| == 0 {
        return Err(NoCategory);
      }
      return Ok(all[draw % |all|]);
    }

    method PickRandom(difficulty: Option<Difficulty>, category: Option<Category>, exclude: Option<Category>,
                      draw: nat, descriptorId: string) returns (r: Result<ChallengeDescriptor, RouterError>)
      ensures r == Picked(categoryToRoute, difficulty, category, exclude, draw, descriptorId)
    {
      if difficulty.None? {
        return Err(DifficultyRequired);
      }
      var chosen: Category;
      if category.Some? {
        chosen := category.value;
      } else {
        var picked := PickRandomCategory(exclude, draw);
        if picked.Err? {
          return Err(picked.error);
        }
        chosen := picked.value;
      }
      if chosen !in categoryToRoute {
        return Err(NoRouteFor(chosen));
      }
      var d := difficulty.value;
      return Ok(ChallengeDescriptor(descriptorId, None, chosen, d, None, categoryToRoute[chosen],
        Params(Level(d), DifficultyName(d), CategoryName(chosen))));
    }
  }

  // ---------------------------------------------------------------------------------------
  // Properties
  // ---------------------------------------------------------------------------------------

  /** Every routed category from position i of the declaration order on is a key. */
  lemma {:induction false} KeysFromComplete(routes: map<Category, string>, i: nat, c: Category)
    requires i <= CategoryOrdinal(c)
    requires c in routes
    ensures c in KeysFrom(routes, i)
    decreases |AllCategories| - i
  {
    if i < CategoryOrdinal(c) {
      KeysFromComplete(routes, i + 1, c);
    }
  }

  /** removeIf keeps every element other than x. */
  lemma {:induction false} WithoutKeeps(cs: seq<Category>, x: Category, k: nat)
    requires k < |cs| && cs[k] != x
    ensures cs[k] in Without(cs, x)
  {
    if k > 0 {
      WithoutKeeps(cs[1..], x, k - 1);
    }
  }

  /** valueOf(name()) is the identity, so a category remembered by name is recovered. */
  lemma CategoryNameRoundTrip(c: Category)
    ensures CategoryOf(CategoryName(c)) == Some(c)
  {
  }

  /** With the configured routes every category is a candidate, in declaration order. */
  lemma DefaultKeysAreAll()
    ensures Keys(DefaultRoutes) == AllCategories
  {
    var ks := Keys(DefaultRoutes);
    KeysFromComplete(DefaultRoutes, 0, StackMaze);
    KeysFromComplete(DefaultRoutes, 0, GraphPath);
    KeysFromComplete(DefaultRoutes, 0, BstInsert);
    KeysFromComplete(DefaultRoutes, 0, QueueCommander);
    assert StackMaze in ks && GraphPath in ks && BstInsert in ks && QueueCommander in ks;
    KeysAreAllWhenEverythingRouted(ks);
  }

  /** An increasing list of ordinals holding all four categories is the declaration order. */
  lemma KeysAreAllWhenEverythingRouted(ks: seq<Category>)
    requires forall a, b :: 0 <= a < b < |ks| ==> CategoryOrdinal(ks[a]) < CategoryOrdinal(ks[b])
    requires StackMaze in ks && GraphPath in ks && BstInsert in ks && QueueCommander in ks
    ensures ks == AllCategories
  {
    var a :| 0 <= a < |ks| && ks[a] == StackMaze;
    var b :| 0 <= b < |ks| && ks[b] == GraphPath;
    var c :| 0 <= c < |ks| && ks[c] == BstInsert;
    var d :| 0 <= d < |ks| && ks[d] == QueueCommander;
    assert a < b < c < d;
    OrdinalAtLeastIndex(ks, |ks| - 1);
    assert a == 0 && b == 1 && c == 2 && d == 3;
  }

  lemma {:induction false} OrdinalAtLeastIndex(ks: seq<Category>, j: nat)
    requires forall a, b :: 0 <= a < b < |ks| ==> CategoryOrdinal(ks[a]) < CategoryOrdinal(ks[b])
    requires j < |ks|
    ensures CategoryOrdinal(ks[j]) >= j
  {
    if j > 0 {
      OrdinalAtLeastIndex(ks, j - 1);
      assert CategoryOrdinal(ks[j - 1]) < CategoryOrdinal(ks[j]);
    }
  }

  /** Dropping one category from a list without repeats that has two or more leaves some category. */
  lemma WithoutLeavesOne(cs: seq<Category>, x: Category)
    requires forall a, b :: 0 <= a < b < |cs| ==> CategoryOrdinal(cs[a]) < CategoryOrdinal(cs[b])
    requires |cs| > 1
    ensures |Without(cs, x)| > 0
  {
    assert cs[0] != cs[1] by {
      assert CategoryOrdinal(cs[0]) < CategoryOrdinal(cs[1]);
    }
    if cs[0] != x {
      WithoutKeeps(cs, x, 0);
    } else {
      WithoutKeeps(cs, x, 1);
    }
  }

  /** The candidates are routed categories; none is the excluded one when two or more are routed. */
  lemma CandidatesAreRouted(routes: map<Category, string>, exclude: Option<Category>)
    ensures forall j :: 0 <= j < |Candidates(routes, exclude)| ==> Candidates(routes, exclude)[j] in routes
    ensures |Keys(routes)| > 1 && exclude.Some? ==>
      forall j :: 0 <= j < |Candidates(routes, exclude)| ==> Candidates(routes, exclude)[j] != exclude.value
    ensures |Candidates(routes, exclude)| == 0 <==> |Keys(routes)| == 0
  {
    CandidatesInRoutes(routes, exclude);
    CandidatesEmpty(routes, exclude);
  }

  lemma CandidatesInRoutes(routes: map<Category, string>, exclude: Option<Category>)
    ensures forall j :: 0 <= j < |Candidates(routes, exclude)| ==> Candidates(routes, exclude)[j] in routes
  {
    var all := Keys(routes);
    if exclude.Some? && |all| > 1 {
      var r := Without(all, exclude.value);
      forall j | 0 <= j < |r| ensures r[j] in routes {
        var k :| 0 <= k < |all| && all[k] == r[j];
      }
    }
  }

  lemma CandidatesEmpty(routes: map<Category, string>, exclude: Option<Category>)
    ensures |Candidates(routes, exclude)| == 0 <==> |Keys(routes)| == 0
  {
    var all := Keys(routes);
    if exclude.Some? && |all| > 1 {
      WithoutLeavesOne(all, exclude.value);
    }
  }

  /**
   * The "no repeat twice" rule: when two or more categories are routed, a drawn category is
   * never the excluded one; and a draw is only impossible when no category is routed.
   */
  lemma DrawAvoidsExcluded(routes: map<Category, string>, exclude: Option<Category>, draw: nat)
    ensures PickedCategory(routes, exclude, draw).Err? <==> |Keys(routes)| == 0
    ensures PickedCategory(routes, exclude, draw).Ok? ==> PickedCategory(routes, exclude, draw).value in routes
    ensures |Keys(routes)| > 1 && exclude.Some? && PickedCategory(routes, exclude, draw).Ok? ==>
      PickedCategory(routes, exclude, draw).value != exclude.value
  {
    CandidatesAreRouted(routes, exclude);
    var cands := Candidates(routes, exclude);
    if |cands| > 0 {
      var j := draw % |cands|;
      assert PickedCategory(routes, exclude, draw) == Ok(cands[j]);
    }
  }

  /** nextInt's bound leaves a number below it unchanged. */
  lemma SmallDrawIsItself(i: nat, n: nat)
    requires i < n
    ensures i % n == i
  {
  }

  /** Every candidate is drawn by some random number: the draw can land on any of them. */
  lemma EveryCandidateDrawable(routes: map<Category, string>, exclude: Option<Category>, i: nat)
    requires i < |Candidates(routes, exclude)|
    ensures PickedCategory(routes, exclude, i) == Ok(Candidates(routes, exclude)[i])
  {
    var cands := Candidates(routes, exclude);
    SmallDrawIsItself(i, |cands|);
    assert PickedCategory(routes, exclude, i) == Ok(cands[i]);
  }

  /**
   * With the configured routes a difficulty always yields a descriptor: for the asked-for
   * category if there is one, otherwise for a category other than the excluded one, and with
   * that category's route and the difficulty's parameters.
   */
  lemma DefaultRoutesAlwaysPick(d: Difficulty, category: Option<Category>, exclude: Option<Category>,
                                draw: nat, descriptorId: string)
    ensures Picked(DefaultRoutes, Some(d), category, exclude, draw, descriptorId).Ok?
    ensures var r := Picked(DefaultRoutes, Some(d), category, exclude, draw, descriptorId).value;
      r.id == descriptorId && r.difficulty == d && r.route == DefaultRoutes[r.category] &&
      r.params == Params(Level(d), DifficultyName(d), CategoryName(r.category)) &&
      r.challengeInstanceId.None? && r.basePoints.None? &&
      (category.Some? ==> r.category == category.value) &&
      (category.None? && exclude.Some? ==> r.category != exclude.value)
  {
    var c: Category;
    if category.None? {
      DrawnDefaultCategory(exclude, draw);
      c := PickedCategory(DefaultRoutes, exclude, draw).value;
    } else {
      c := category.value;
      assert c in DefaultRoutes by {
        DefaultKeysAreAll();
        assert Keys(DefaultRoutes)[CategoryOrdinal(c)] == c;
      }
    }
    PickedDescriptor(DefaultRoutes, d, category, exclude, draw, descriptorId, c);
  }

  /** Once the category is settled and routed, the descriptor carries its route and the difficulty's parameters. */
  lemma PickedDescriptor(routes: map<Category, string>, d: Difficulty, category: Option<Category>,
                         exclude: Option<Category>, draw: nat, descriptorId: string, c: Category)
    requires c in routes
    requires (if category.Some? then Ok(category.value) else PickedCategory(routes, exclude, draw)) == Ok(c)
    ensures Picked(routes, Some(d), category, exclude, draw, descriptorId) ==
      Ok(ChallengeDescriptor(descriptorId, None, c, d, None, routes[c],
        Params(Level(d), DifficultyName(d), CategoryName(c))))
  {
  }

  /** With the configured routes a draw always succeeds, and avoids the excluded category. */
  lemma DrawnDefaultCategory(exclude: Option<Category>, draw: nat)
    ensures PickedCategory(DefaultRoutes, exclude, draw).Ok?
    ensures PickedCategory(DefaultRoutes, exclude, draw).value in DefaultRoutes
    ensures exclude.Some? ==> PickedCategory(DefaultRoutes, exclude, draw).value != exclude.value
  {
    DefaultKeysAreAll();
    assert |Keys(DefaultRoutes)| > 1;
    DrawAvoidsExcluded(DefaultRoutes, exclude, draw);
  }

  /** pickRandom without a difficulty fails, whatever else is asked for. */
  lemma DifficultyIsRequired(routes: map<Category, string>, category: Option<Category>, exclude: Option<Category>,
                             draw: nat, descriptorId: string)
    ensures Picked(routes, None, category, exclude, draw, descriptorId) == Err(DifficultyRequired)
  {
  }

  /** An asked-for category without a route is an error; the draw never picks an unrouted one. */
  lemma UnroutedCategoryFails(routes: map<Category, string>, d: Difficulty, c: Category, exclude: Option<Category>,
                              draw: nat, descriptorId: string)
    ensures Picked(routes, Some(d), Some(c), exclude, draw, descriptorId) == Err(NoRouteFor(c)) <==> c !in routes
    ensures Picked(routes, Some(d), None, exclude, draw, descriptorId) != Err(NoRouteFor(c))
  {
    DrawAvoidsExcluded(routes, exclude, draw);
  }
}
