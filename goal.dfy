/** The goal variants of `ottopy/models/goal.py`, as one closed datatype.
    Each goal is a predicate over a snapshot of the robot and the world;
    evaluating it changes nothing (these are functions). The only goal
    whose evaluation can raise is the wall goal, which indexes the cell
    grid and resolves direction names. */
module Goals {
  import opened Common
  import opened Keys
  import opened Walls

  /** What a goal reads of a robot. */
  datatype BotView = BotView(
    x: int,
    y: int,
    countReport: seq<string>,
    collections: map<string, map<string, int>>,
    flagCount: int)

  /** What a goal reads of the world. */
  datatype WorldView = WorldView(grid: Grid, objects: map<string, Pile>)

  datatype Goal =
    | PositionGoal(px: Scalar, py: Scalar)
    | WallGoal(wx: int, wy: int, directions: seq<DirSpec>)
    | ObjectGoal(ox: int, oy: int, objName: string, val: Scalar)
    | ReporterGoal(report: string)
    | DropGoal(dx: int, dy: int, dropName: string, dropVal: Scalar)
    | FlagCountGoal(count: int)

  /** `all(cell.has_block(d) for d in directions)` on cell (x, y): stops at
      the first side that is open; an unknown direction met before that
      raises. */
  function AllBlocked(g: Grid, x: int, y: int, dirs: seq<DirSpec>): (r: Result<bool>)
    requires WellFormed(g) && InGrid(g, x, y)
  {
    if |dirs| == 0 then Success(true)
    else match GetDir(dirs[0])
      case Failure(e) => Failure(e)
      case Success(d) => if HasBlock(g, x, y, d) then AllBlocked(g, x, y, dirs[1..]) else Success(false)
  }

  /** A wall goal holds exactly when every listed direction is blocked. */
  lemma {:induction false} AllBlockedMeaning(g: Grid, x: int, y: int, dirs: seq<DirSpec>)
    requires WellFormed(g) && InGrid(g, x, y)
    requires forall i :: 0 <= i < |dirs| ==> GetDir(dirs[i]).Success?
    ensures AllBlocked(g, x, y, dirs) ==
              Success(forall i :: 0 <= i < |dirs| ==> HasBlock(g, x, y, GetDir(dirs[i]).value))
  {
    if |dirs| > 0 {
      AllBlockedMeaning(g, x, y, dirs[1..]);
      assert forall i :: 1 <= i < |dirs| ==> dirs[i] == dirs[1..][i - 1];
    }
  }

  /** `goal.is_completed(bot, world)`. */
  function IsCompleted(goal: Goal, bot: BotView, world: WorldView): Result<bool>
    requires WellFormed(world.grid)
  {
    match goal
    case PositionGoal(px, py) => Success(px == Num(bot.x) && py == Num(bot.y))
    case ReporterGoal(report) => Success(report in bot.countReport)
    case WallGoal(wx, wy, dirs) =>
      (match CellAt(world.grid, wx, wy)
       case Failure(e) => Failure(e)
       case Success((cx, cy)) => AllBlocked(world.grid, cx, cy, dirs))
    case ObjectGoal(ox, oy, name, val) =>
      var key := PosKey(ox, oy);
      var tally := if key in bot.collections && name in bot.collections[key] then bot.collections[key][name] else 0;
      Success(val == Num(tally))
    case DropGoal(dx, dy, name, val) =>
      var key := PosKey(dx, dy);
      Success(key in world.objects && world.objects[key].name == name && val == Num(world.objects[key].count))
    case FlagCountGoal(count) => Success(count == bot.flagCount)
  }

  /** A run of direction lookups fails only as `get_dir` does: an
      unknown name is a KeyError, an unknown number a ValueError. */
  lemma {:induction false} AllBlockedErrors(g: Grid, x: int, y: int, dirs: seq<DirSpec>)
    requires WellFormed(g) && InGrid(g, x, y)
    ensures AllBlocked(g, x, y, dirs).Failure? ==> AllBlocked(g, x, y, dirs).error in {KeyError, ValueError}
  {
    if |dirs| > 0 && GetDir(dirs[0]).Success? {
      AllBlockedErrors(g, x, y, dirs[1..]);
    }
  }

  /** Only a wall goal can raise: an IndexError from its cell lookup, or
      a KeyError or ValueError from one of its directions. Every other
      goal always gives a verdict. */
  lemma OnlyWallGoalsRaise(goal: Goal, bot: BotView, world: WorldView)
    requires WellFormed(world.grid)
    ensures !goal.WallGoal? ==> IsCompleted(goal, bot, world).Success?
    ensures IsCompleted(goal, bot, world).Failure? ==>
      IsCompleted(goal, bot, world).error in {IndexError, KeyError, ValueError}
  {
    if goal.WallGoal? && CellAt(world.grid, goal.wx, goal.wy).Success? {
      var (cx, cy) := CellAt(world.grid, goal.wx, goal.wy).value;
      AllBlockedErrors(world.grid, cx, cy, goal.directions);
    }
  }

  /** A position goal holds on exactly the cell its numbers name. One
      whose coordinate is still a text or a list never holds, since the
      robot's integer position never equals it. */
  lemma PositionGoalMeaning(goal: Goal, bot: BotView, world: WorldView)
    requires WellFormed(world.grid) && goal.PositionGoal?
    ensures IsCompleted(goal, bot, world).Success?
    ensures IsCompleted(goal, bot, world).value <==>
      goal.px.Num? && goal.py.Num? && bot.x == goal.px.n && bot.y == goal.py.n
  {
  }

  /** Reports only accumulate, so a reporter goal that holds keeps holding
      whatever is reported afterwards. */
  lemma ReporterGoalStaysMet(goal: Goal, bot: BotView, world: WorldView, more: seq<string>)
    requires WellFormed(world.grid) && goal.ReporterGoal?
    requires IsCompleted(goal, bot, world) == Success(true)
    ensures IsCompleted(goal, bot.(countReport := bot.countReport + more), world) == Success(true)
  {
    assert goal.report in bot.countReport + more;
  }

  /** The wall goal on a cell of the grid with known directions holds
      exactly when each listed side is a border or has a NORMAL wall. */
  lemma WallGoalMeaning(goal: Goal, bot: BotView, world: WorldView)
    requires WellFormed(world.grid) && goal.WallGoal? && InGrid(world.grid, goal.wx, goal.wy)
    requires forall i :: 0 <= i < |goal.directions| ==> GetDir(goal.directions[i]).Success?
    ensures IsCompleted(goal, bot, world) ==
      Success(forall i :: 0 <= i < |goal.directions| ==>
        var d := GetDir(goal.directions[i]).value;
        HasBorder(world.grid, goal.wx, goal.wy, d) || HasWall(world.grid, goal.wx, goal.wy, d))
  {
    AllBlockedMeaning(world.grid, goal.wx, goal.wy, goal.directions);
  }

  /** The key of each goal class in `class_list`. */
  function KindOf(goal: Goal): string
  {
    match goal
    case PositionGoal(_, _) => "position"
    case WallGoal(_, _, _) => "wall"
    case ObjectGoal(_, _, _, _) => "object"
    case ReporterGoal(_) => "reporter"
    case DropGoal(_, _, _, _) => "drop"
    case FlagCountGoal(_) => "flag_count"
  }

  predicate IsKind(kind: string)
  {
    kind in {"position", "wall", "object", "reporter", "drop", "flag_count"}
  }

  /** The configuration handed to a goal class: the fields each class
      reads with `config.get`, plus the text a reporter goal keeps. */
  datatype GoalConfig = GoalConfig(
    x: Scalar, y: Scalar, walls: seq<DirSpec>, objName: string, val: Scalar, count: int, text: string)

  /** `Goal.load(kind, config)`: the class registered under `kind`, built
      from `config`. An unregistered kind calls `None(config)`, a TypeError. */
  function Load(kind: string, cfg: GoalConfig): (r: Result<Goal>)
    ensures r.Success? ==> IsKind(kind) && KindOf(r.value) == kind
    ensures !IsKind(kind) ==> r == Failure(TypeError)
    ensures IsKind(kind) && cfg.x.Num? && cfg.y.Num? ==> r.Success?
  {
    if kind == "position" then Success(PositionGoal(cfg.x, cfg.y))
    else if kind == "reporter" then Success(ReporterGoal(cfg.text))
    else if kind == "flag_count" then Success(FlagCountGoal(cfg.count))
    else if kind in {"wall", "object", "drop"} then
      (match (cfg.x, cfg.y)
       case (Num(x), Num(y)) =>
         Success(if kind == "wall" then WallGoal(x, y, cfg.walls)
                 else if kind == "object" then ObjectGoal(x, y, cfg.objName, cfg.val)
                 else DropGoal(x, y, cfg.objName, cfg.val))
       case _ => Failure(TypeError))
    else Failure(TypeError)
  }

  /** `all(goal.is_completed(bot, self) for goal in goals)`: stops at the
      first goal that does not hold. */
  function AllCompleted(goals: seq<Goal>, bot: BotView, world: WorldView): Result<bool>
    requires WellFormed(world.grid)
  {
    if |goals| == 0 then Success(true)
    else match IsCompleted(goals[0], bot, world)
      case Failure(e) => Failure(e)
      case Success(b) => if b then AllCompleted(goals[1..], bot, world) else Success(false)
  }

  /** The loop of `WorldModel.check`: every goal is evaluated, in order,
      and the verdict is their conjunction. */
  function EveryGoal(goals: seq<Goal>, bot: BotView, world: WorldView): Result<bool>
    requires WellFormed(world.grid)
  {
    if |goals| == 0 then Success(true)
    else match IsCompleted(goals[0], bot, world)
      case Failure(e) => Failure(e)
      case Success(b) =>
        match EveryGoal(goals[1..], bot, world)
        case Failure(e) => Failure(e)
        case Success(rest) => Success(b && rest)
  }

  predicate Evaluates(goals: seq<Goal>, bot: BotView, world: WorldView)
    requires WellFormed(world.grid)
  {
    forall i :: 0 <= i < |goals| ==> IsCompleted(goals[i], bot, world).Success?
  }

  /** When no goal raises, `done` and `check` reach the same verdict: true
      exactly when every goal holds. */
  lemma {:induction false} DoneAgreesWithCheck(goals: seq<Goal>, bot: BotView, world: WorldView)
    requires WellFormed(world.grid) && Evaluates(goals, bot, world)
    ensures AllCompleted(goals, bot, world) == EveryGoal(goals, bot, world)
    ensures AllCompleted(goals, bot, world) ==
              Success(forall i :: 0 <= i < |goals| ==> IsCompleted(goals[i], bot, world).value)
  {
    if |goals| > 0 {
      assert forall i :: 1 <= i < |goals| ==> goals[i] == goals[1..][i - 1];
      DoneAgreesWithCheck(goals[1..], bot, world);
    }
  }

  /** `done` may stop before a goal that would raise: a false goal in front
      of it hides the fault, while `check` still meets it. */
  lemma DoneSkipsLaterFaults(bot: BotView, world: WorldView)
    requires WellFormed(world.grid) && world.grid.cols >= 0 && world.grid.rows >= 0
    ensures var goals := [FlagCountGoal(bot.flagCount + 1), WallGoal(world.grid.cols + 1, 1, [])];
            AllCompleted(goals, bot, world) == Success(false)
            && EveryGoal(goals, bot, world) == Failure(IndexError)
  {
    var goals := [FlagCountGoal(bot.flagCount + 1), WallGoal(world.grid.cols + 1, 1, [])];
    assert goals[1..] == [WallGoal(world.grid.cols + 1, 1, [])];
  }
}
