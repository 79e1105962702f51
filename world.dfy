/** `WorldModel` of `ottopy/models/world_model.py`: the grid with its wall
    arrays and cells, the object, flag and message tables, the goals, the
    robots' starting records, the instruction quota and the one-shot check.
    Dictionaries and lists that the source mutates are `map` and `seq`
    fields that the methods reassign. */
module World {
  import opened Common
  import opened Keys
  import opened Walls
  import opened Goals

  const MAX_ROWS: int := 20
  const MAX_COLS: int := 20
  const DEFAULT_MAX_INSTRUCTION_COUNT: int := 1000

  /** A cell's background: one image name, or a list of layered names. */
  datatype Background = Image(name: string) | Layers(names: seq<string>)

  /** The state of one `Cell` object: its position, background, message and
      the `editable` flags for picking and dropping. */
  datatype CellInfo = CellInfo(x: int, y: int, background: Option<Background>, msg: Option<string>, pick: bool, drop: bool)

  /** `RobotModel` of `ottopy/models/robot_model.py`. */
  datatype RobotModel = RobotModel(x: int, y: int, orientation: int, traceColor: string)

  /** `add_description` accepts a text, nothing, or a list of lines. */
  datatype DescSpec = DescText(text: Option<string>) | DescLines(lines: seq<string>)

  /** `'\n'.join(lines)`. */
  function JoinLines(lines: seq<string>): (s: string)
    ensures |lines| == 0 ==> s == ""
    ensures |lines| == 1 ==> s == lines[0]
  {
    if |lines| == 0 then "" else if |lines| == 1 then lines[0]
    else lines[0] + "\n" + JoinLines(lines[1..])
  }

  /** Splitting the joined text at its newlines gives the lines back, as
      long as no line holds a newline of its own. */
  lemma {:induction false} JoinSplitRoundTrip(lines: seq<string>)
    requires |lines| >= 1
    requires forall i :: 0 <= i < |lines| ==> '\n' !in lines[i]
    ensures Split(JoinLines(lines), '\n') == lines
  {
    if |lines| > 1 {
      var rest := lines[1..];
      assert forall i :: 0 <= i < |rest| ==> rest[i] == lines[i + 1];
      JoinSplitRoundTrip(rest);
      assert JoinLines(lines) == lines[0] + ['\n'] + JoinLines(rest);
      SplitAtFirst(lines[0], '\n', JoinLines(rest));
      assert [lines[0]] + rest == lines;
    }
  }

  /** A new cell at grid position (x, y): no background, no message, and
      both picking and dropping allowed. */
  function FreshCell(x: int, y: int): CellInfo
  {
    CellInfo(x, y, None, None, true, true)
  }

  /** `Max(cols, 0)` columns of `Max(rows, 0)` cells, the one at `[i][j]`
      being at position (i + 1, j + 1). */
  predicate CellGrid(cells: seq<seq<CellInfo>>, rows: int, cols: int)
  {
    && |cells| == Max(cols, 0)
    && forall i :: 0 <= i < |cells| ==>
         |cells[i]| == Max(rows, 0)
         && forall j :: 0 <= j < |cells[i]| ==> cells[i][j].x == i + 1 && cells[i][j].y == j + 1
  }

  predicate TileGrid(tiles: seq<seq<Option<Background>>>, rows: int, cols: int)
  {
    |tiles| == Max(cols, 0) && forall i :: 0 <= i < |tiles| ==> |tiles[i]| == Max(rows, 0)
  }

  /** Replacing one cell by a cell at the same position keeps the grid. */
  lemma CellUpdateKeepsGrid(cells: seq<seq<CellInfo>>, rows: int, cols: int, i: int, j: int, c: CellInfo)
    requires CellGrid(cells, rows, cols) && 0 <= i < |cells| && 0 <= j < |cells[i]|
    requires c.x == cells[i][j].x && c.y == cells[i][j].y
    ensures CellGrid(cells[i := cells[i][j := c]], rows, cols)
  {
  }

  /** Replacing one tile keeps the tile array's shape. */
  lemma TileUpdateKeepsGrid(tiles: seq<seq<Option<Background>>>, rows: int, cols: int, i: int, j: int, t: Option<Background>)
    requires TileGrid(tiles, rows, cols) && 0 <= i < |tiles| && 0 <= j < |tiles[i]|
    ensures TileGrid(tiles[i := tiles[i][j := t]], rows, cols)
  {
  }

  /** The tile array of a fresh grid: every entry empty. */
  function EmptyTiles(rows: int, cols: int): (t: seq<seq<Option<Background>>>)
    ensures TileGrid(t, rows, cols)
    ensures forall i, j :: 0 <= i < |t| && 0 <= j < |t[i]| ==> t[i][j] == None
  {
    seq(Max(cols, 0), _ => seq(Max(rows, 0), _ => None))
  }

  /** The nested loop of `set_dimensions` that creates the cells. */
  method BuildCells(rows: int, cols: int) returns (cells: seq<seq<CellInfo>>)
    ensures CellGrid(cells, rows, cols)
    ensures forall i, j :: 0 <= i < |cells| && 0 <= j < |cells[i]| ==> cells[i][j] == FreshCell(i + 1, j + 1)
  {
    cells := [];
    var i := 0;
    while i < cols
      invariant 0 <= i <= Max(cols, 0) && |cells| == i
      invariant forall a :: 0 <= a < i ==> |cells[a]| == Max(rows, 0)
      invariant forall a, b :: 0 <= a < i && 0 <= b < |cells[a]| ==> cells[a][b] == FreshCell(a + 1, b + 1)
    {
      var column: seq<CellInfo> := [];
      var j := 0;
      while j < rows
        invariant 0 <= j <= Max(rows, 0) && |column| == j
        invariant forall b :: 0 <= b < j ==> column[b] == FreshCell(i + 1, b + 1)
      {
        column := column + [FreshCell(i + 1, j + 1)];
        j := j + 1;
      }
      cells := cells + [column];
      i := i + 1;
    }
  }

  class WorldModel {
    var rows: int
    var cols: int
    var hwalls: seq<seq<int>>
    var vwalls: seq<seq<int>>
    var tiles: seq<seq<Option<Background>>>
    var cells: seq<seq<CellInfo>>
    var objects: map<string, Pile>
    var robots: seq<RobotModel>
    var goals: seq<Goal>
    var description: Option<string>
    var maxInstructionCount: int
    var instructionCount: int
    var jsCallCounter: int
    var messages: map<string, string>
    var flags: map<string, int>
    var gridLineColor: string
    var isChecked: bool

    /** The wall arrays with the size they were made for. */
    function Walls(): Grid
      reads this`rows, this`cols, this`hwalls, this`vwalls
    {
      Grid(rows, cols, hwalls, vwalls)
    }

    /** What goals read of the world. */
    function View(): WorldView
      reads this`rows, this`cols, this`hwalls, this`vwalls, this`objects
    {
      WorldView(Walls(), objects)
    }

    ghost predicate Valid()
      reads this`rows, this`cols, this`hwalls, this`vwalls, this`cells, this`tiles
    {
      && WellFormed(Walls())
      && rows <= MAX_ROWS && cols <= MAX_COLS
      && CellGrid(cells, rows, cols)
      && TileGrid(tiles, rows, cols)
    }

    /** `WorldModel.__init__` without a world file: a 10 by 10 empty grid,
      the default quota of 1000 unless `quota` overrides it, and nothing
      checked yet. */
    constructor (quota: Option<int>)
      ensures Valid()
      ensures rows == 10 && cols == 10
      ensures hwalls == ZeroArray(10, 10) && vwalls == ZeroArray(10, 10)
      ensures tiles == EmptyTiles(10, 10)
      ensures forall i, j :: 0 <= i < |cells| && 0 <= j < |cells[i]| ==> cells[i][j] == FreshCell(i + 1, j + 1)
      ensures objects == map[] && robots == [] && goals == [] && description == None
      ensures messages == map[] && flags == map[] && isChecked == false
      ensures instructionCount == 0 && jsCallCounter == 1
      ensures maxInstructionCount == (if quota.Some? then quota.value else DEFAULT_MAX_INSTRUCTION_COUNT)
    {
      objects := map[];
      robots := [];
      goals := [];
      description := None;
      rows, cols := 10, 10;
      hwalls, vwalls := ZeroArray(10, 10), ZeroArray(10, 10);
      tiles := EmptyTiles(10, 10);
      var made := BuildCells(10, 10);
      cells := made;
      maxInstructionCount := if quota.Some? then quota.value else DEFAULT_MAX_INSTRUCTION_COUNT;
      instructionCount := 0;
      jsCallCounter := 1;
      messages := map[];
      flags := map[];
      gridLineColor := "gray";
      isChecked := false;
    }

    /** `set_dimensions`: rows and columns are capped at 20 (never raised to
      a minimum), and the walls, tiles and cells are all made afresh. */
    method SetDimensions(r: int, c: int)
      modifies this`rows, this`cols, this`hwalls, this`vwalls, this`cells, this`tiles
      ensures Valid()
      ensures rows == Min(r, MAX_ROWS) && cols == Min(c, MAX_COLS)
      ensures hwalls == ZeroArray(rows, cols) && vwalls == ZeroArray(rows, cols)
      ensures tiles == EmptyTiles(rows, cols)
      ensures forall i, j :: 0 <= i < |cells| && 0 <= j < |cells[i]| ==> cells[i][j] == FreshCell(i + 1, j + 1)
    {
      rows := Min(r, MAX_ROWS);
      cols := Min(c, MAX_COLS);
      hwalls := ZeroArray(rows, cols);
      vwalls := ZeroArray(rows, cols);
      tiles := EmptyTiles(rows, cols);
      var made := BuildCells(rows, cols);
      cells := made;
    }

    /** The position of the cell `cells[x - 1][y - 1]` reaches. */
    function CellPos(x: int, y: int): (r: Result<(int, int)>)
      reads this`rows, this`cols, this`hwalls, this`vwalls
      ensures r == CellAt(Walls(), x, y)
    {
      CellAt(Walls(), x, y)
    }

    /** `add_tile`: the background of the cell reached and the parallel tile
      entry both become `bg`. */
    method AddTile(x: int, y: int, bg: Background) returns (out: Outcome)
      requires Valid()
      modifies this`tiles, this`cells
      ensures Valid()
      ensures out.Fail? <==> old(CellPos(x, y)).Failure?
      ensures out.Fail? ==> out.error == IndexError && tiles == old(tiles) && cells == old(cells)
      ensures out.Pass? ==>
        var (cx, cy) := old(CellPos(x, y)).value;
        && tiles == old(tiles)[cx - 1 := old(tiles)[cx - 1][cy - 1 := Some(bg)]]
        && cells == old(cells)[cx - 1 := old(cells)[cx - 1][cy - 1 := old(cells)[cx - 1][cy - 1].(background := Some(bg))]]
    {
      match CellPos(x, y)
      case Failure(e) => out := Fail(e);
      case Success((cx, cy)) =>
        CellUpdateKeepsGrid(cells, rows, cols, cx - 1, cy - 1, cells[cx - 1][cy - 1].(background := Some(bg)));
        TileUpdateKeepsGrid(tiles, rows, cols, cx - 1, cy - 1, Some(bg));
        cells := cells[cx - 1 := cells[cx - 1][cy - 1 := cells[cx - 1][cy - 1].(background := Some(bg))]];
        tiles := tiles[cx - 1 := tiles[cx - 1][cy - 1 := Some(bg)]];
        out := Pass;
    }

    /** `add_msg`: the message table gets the text under "x,y" first; then
      the cell is looked up, which may raise with the table already
      changed. */
    method AddMsg(x: int, y: int, msg: string) returns (out: Outcome)
      requires Valid()
      modifies this`messages, this`cells
      ensures Valid()
      ensures messages == old(messages)[PosKey(x, y) := msg]
      ensures out.Fail? <==> old(CellPos(x, y)).Failure?
      ensures out.Fail? ==> out.error == IndexError && cells == old(cells)
      ensures out.Pass? ==>
        var (cx, cy) := old(CellPos(x, y)).value;
        cells == old(cells)[cx - 1 := old(cells)[cx - 1][cy - 1 := old(cells)[cx - 1][cy - 1].(msg := Some(msg))]]
    {
      var pos := CellPos(x, y);
      messages := messages[PosKey(x, y) := msg];
      match pos
      case Failure(e) => out := Fail(e);
      case Success((cx, cy)) =>
        CellUpdateKeepsGrid(cells, rows, cols, cx - 1, cy - 1, cells[cx - 1][cy - 1].(msg := Some(msg)));
        cells := cells[cx - 1 := cells[cx - 1][cy - 1 := cells[cx - 1][cy - 1].(msg := Some(msg))]];
        out := Pass;
    }

    /** `add_flag`: `flags["x,y"] = 1`. */
    method AddFlag(x: int, y: int)
      modifies this`flags
      ensures flags == old(flags)[PosKey(x, y) := 1]
    {
      flags := flags[PosKey(x, y) := 1];
    }

    /** `remove_flag`: deletes "x,y", and raises KeyError when it is absent.
      (The bridge call that follows is made by the caller.) */
    method RemoveFlag(x: int, y: int) returns (out: Outcome)
      modifies this`flags
      ensures out.Pass? <==> PosKey(x, y) in old(flags)
      ensures out.Fail? ==> out.error == KeyError && flags == old(flags)
      ensures out.Pass? ==> flags == old(flags) - {PosKey(x, y)}
    {
      var k := PosKey(x, y);
      if k in flags {
        flags := flags - {k};
        out := Pass;
      } else {
        out := Fail(KeyError);
      }
    }

    /** `add_description`: a list of lines is joined with newlines. */
    method AddDescription(desc: DescSpec)
      modifies this`description
      ensures description == match desc
        case DescText(t) => t
        case DescLines(lines) => Some(JoinLines(lines))
    {
      match desc
      case DescText(t) => description := t;
      case DescLines(lines) => description := Some(JoinLines(lines));
    }

    /** `Cell.set_wall` on the cell at grid position (cx, cy). */
    method SetWall(cx: int, cy: int, d: Direction, v: int)
      requires Valid() && InGrid(Walls(), cx, cy) && 0 <= v < 8
      modifies this`hwalls, this`vwalls
      ensures Valid()
      ensures Walls() == SetSlot(old(Walls()), cx, cy, d, v)
    {
      var g := SetSlot(Walls(), cx, cy, d, v);
      hwalls, vwalls := g.hwalls, g.vwalls;
    }

    /** `Cell.add_wall`: the slot is overwritten with 1 (normal), 3
      (removable and normal) or 4 (goal). */
    method CellAddWall(cx: int, cy: int, d: Direction, kind: WallKind)
      requires Valid() && InGrid(Walls(), cx, cy)
      modifies this`hwalls, this`vwalls
      ensures Valid()
      ensures Walls() == SetSlot(old(Walls()), cx, cy, d, KindValue(kind))
    {
      SetWall(cx, cy, d, KindValue(kind));
    }

    /** `Cell.remove_wall`: the slot is cleared to 0. */
    method CellRemoveWall(cx: int, cy: int, d: Direction)
      requires Valid() && InGrid(Walls(), cx, cy)
      modifies this`hwalls, this`vwalls
      ensures Valid()
      ensures Walls() == SetSlot(old(Walls()), cx, cy, d, 0)
    {
      SetWall(cx, cy, d, 0);
    }

    /** `Cell.set_as_goal`: the GOAL bit is added to what the slot holds. */
    method SetAsGoal(cx: int, cy: int, d: Direction)
      requires Valid() && InGrid(Walls(), cx, cy)
      modifies this`hwalls, this`vwalls
      ensures Valid()
      ensures Walls() == SetSlot(old(Walls()), cx, cy, d, WithFlag(Slot(old(Walls()), cx, cy, d), GOAL))
    {
      var v := Slot(Walls(), cx, cy, d);
      WithFlagBits(v, GOAL, GOAL);
      SetWall(cx, cy, d, WithFlag(v, GOAL));
    }

    /** `Cell.set_as_removable`: the REMOVABLE bit is added to what the
      slot holds. */
    method SetAsRemovable(cx: int, cy: int, d: Direction)
      requires Valid() && InGrid(Walls(), cx, cy)
      modifies this`hwalls, this`vwalls
      ensures Valid()
      ensures Walls() == SetSlot(old(Walls()), cx, cy, d, WithFlag(Slot(old(Walls()), cx, cy, d), REMOVABLE))
    {
      var v := Slot(Walls(), cx, cy, d);
      WithFlagBits(v, REMOVABLE, REMOVABLE);
      SetWall(cx, cy, d, WithFlag(v, REMOVABLE));
    }

    /** `WorldModel.add_wall`: look the cell up, resolve the direction, and
      write the wall's value into the slot. */
    method AddWall(x: int, y: int, dir: DirSpec, kind: WallKind) returns (out: Outcome)
      requires Valid()
      modifies this`hwalls, this`vwalls
      ensures Valid()
      ensures old(CellPos(x, y)).Failure? ==> out == Fail(IndexError) && Walls() == old(Walls())
      ensures old(CellPos(x, y)).Success? && GetDir(dir).Failure? ==> out == Fail(GetDir(dir).error) && Walls() == old(Walls())
      ensures out.Pass? <==> old(CellPos(x, y)).Success? && GetDir(dir).Success?
      ensures out.Pass? ==>
        var (cx, cy) := old(CellPos(x, y)).value;
        Walls() == SetSlot(old(Walls()), cx, cy, GetDir(dir).value, KindValue(kind))
    {
      match CellPos(x, y)
      case Failure(e) => out := Fail(e);
      case Success((cx, cy)) =>
        match GetDir(dir)
        case Failure(e) => out := Fail(e);
        case Success(d) =>
          CellAddWall(cx, cy, d, kind);
          out := Pass;
    }

    /** `WorldModel.remove_wall`. */
    method RemoveWall(x: int, y: int, dir: DirSpec) returns (out: Outcome)
      requires Valid()
      modifies this`hwalls, this`vwalls
      ensures Valid()
      ensures out.Pass? <==> old(CellPos(x, y)).Success? && GetDir(dir).Success?
      ensures out.Fail? ==> Walls() == old(Walls())
      ensures out.Pass? ==>
        var (cx, cy) := old(CellPos(x, y)).value;
        Walls() == SetSlot(old(Walls()), cx, cy, GetDir(dir).value, 0)
    {
      match CellPos(x, y)
      case Failure(e) => out := Fail(e);
      case Success((cx, cy)) =>
        match GetDir(dir)
        case Failure(e) => out := Fail(e);
        case Success(d) =>
          CellRemoveWall(cx, cy, d);
          out := Pass;
    }

    /** `add_object`: whatever was stored under "x,y" is replaced by the
      single mapping `{name: val}`. */
    method AddObject(x: int, y: int, name: string, val: int)
      modifies this`objects
      ensures objects == old(objects)[PosKey(x, y) := Pile(name, val)]
    {
      objects := objects[PosKey(x, y) := Pile(name, val)];
    }

    method AddRobot(x: int, y: int, orientation: int, traceColor: string)
      modifies this`robots
      ensures robots == old(robots) + [RobotModel(x, y, orientation, traceColor)]
    {
      robots := robots + [RobotModel(x, y, orientation, traceColor)];
    }

    /** `add_goal`: every value of the closed goal type is a valid goal. */
    method AddGoal(goal: Goal)
      modifies this`goals
      ensures goals == old(goals) + [goal]
    {
      goals := goals + [goal];
    }

    /** `_add_goal`: build the goal of that kind and append it. */
    method AddGoalOfKind(kind: string, cfg: GoalConfig) returns (out: Outcome)
      modifies this`goals
      ensures out.Pass? <==> Load(kind, cfg).Success?
      ensures out.Pass? ==> goals == old(goals) + [Load(kind, cfg).value]
      ensures out.Fail? ==> goals == old(goals) && out.error == Load(kind, cfg).error
    {
      match Load(kind, cfg)
      case Failure(e) => out := Fail(e);
      case Success(goal) =>
        AddGoal(goal);
        out := Pass;
    }

    method AddReporterGoal(msg: string)
      modifies this`goals
      ensures goals == old(goals) + [ReporterGoal(msg)]
    {
      AddGoal(ReporterGoal(msg));
    }

    method AddFlagCountGoal(count: int)
      modifies this`goals
      ensures goals == old(goals) + [FlagCountGoal(count)]
    {
      AddGoal(FlagCountGoal(count));
    }

    method AddDropObjGoal(x: int, y: int, name: string, val: int)
      modifies this`goals
      ensures goals == old(goals) + [DropGoal(x, y, name, Num(val))]
    {
      AddGoal(DropGoal(x, y, name, Num(val)));
    }

    method AddPickObjGoal(x: int, y: int, name: string, val: int)
      modifies this`goals
      ensures goals == old(goals) + [ObjectGoal(x, y, name, Num(val))]
    {
      AddGoal(ObjectGoal(x, y, name, Num(val)));
    }

    /** `add_home_goal`: a position goal, and the "house" tile on that cell. */
    method AddHomeGoal(x: int, y: int) returns (out: Outcome)
      requires Valid()
      modifies this`goals, this`tiles, this`cells
      ensures Valid()
      ensures goals == old(goals) + [PositionGoal(Num(x), Num(y))]
      ensures out.Pass? <==> old(CellPos(x, y)).Success?
      ensures out.Fail? ==> out.error == IndexError && tiles == old(tiles) && cells == old(cells)
      ensures out.Pass? ==>
        var (cx, cy) := old(CellPos(x, y)).value;
        && tiles == old(tiles)[cx - 1 := old(tiles)[cx - 1][cy - 1 := Some(Image("house"))]]
        && cells == old(cells)[cx - 1 := old(cells)[cx - 1][cy - 1 := old(cells)[cx - 1][cy - 1].(background := Some(Image("house")))]]
    {
      AddGoal(PositionGoal(Num(x), Num(y)));
      out := AddTile(x, y, Image("house"));
    }

    /** `position_goal`: the position goals, in order. */
    function PositionGoals(): (r: seq<Goal>)
      reads this`goals
      ensures forall g :: g in r <==> g in goals && g.PositionGoal?
    {
      FilterPosition(goals)
    }

    /** `drop_goals`: the drop goals, in order. */
    function DropGoals(): (r: seq<Goal>)
      reads this`goals
      ensures forall g :: g in r <==> g in goals && g.DropGoal?
    {
      FilterDrop(goals)
    }

    /** `drop_allowed` / `pick_allowed`: set one editability flag of the cell. */
    method SetEditable(x: int, y: int, forPick: bool, val: bool) returns (out: Outcome)
      requires Valid()
      modifies this`cells
      ensures Valid()
      ensures out.Pass? <==> old(CellPos(x, y)).Success?
      ensures out.Fail? ==> out.error == IndexError && cells == old(cells)
      ensures out.Pass? ==>
        var (cx, cy) := old(CellPos(x, y)).value;
        var c := old(cells)[cx - 1][cy - 1];
        cells == old(cells)[cx - 1 := old(cells)[cx - 1][cy - 1 := if forPick then c.(pick := val) else c.(drop := val)]]
    {
      match CellPos(x, y)
      case Failure(e) => out := Fail(e);
      case Success((cx, cy)) =>
        var c := cells[cx - 1][cy - 1];
        CellUpdateKeepsGrid(cells, rows, cols, cx - 1, cy - 1, if forPick then c.(pick := val) else c.(drop := val));
        cells := cells[cx - 1 := cells[cx - 1][cy - 1 := if forPick then c.(pick := val) else c.(drop := val)]];
        out := Pass;
    }

    /** `is_clear`: the side `dir` of the cell reached has neither a border
      nor a NORMAL wall. */
    function IsClear(x: int, y: int, dir: DirSpec): (r: Result<bool>)
      requires WellFormed(Walls())
      reads this`rows, this`cols, this`hwalls, this`vwalls
      ensures r.Success? <==> CellPos(x, y).Success? && GetDir(dir).Success?
      ensures r.Success? ==>
        var (cx, cy) := CellPos(x, y).value;
        var d := GetDir(dir).value;
        (r.value <==> !HasBorder(Walls(), cx, cy, d) && !HasFlag(Slot(Walls(), cx, cy, d), NORMAL))
    {
      match CellPos(x, y)
      case Failure(e) => Failure(e)
      case Success((cx, cy)) =>
        match GetDir(dir)
        case Failure(e) => Failure(e)
        case Success(d) => Success(!HasBlock(Walls(), cx, cy, d))
    }

    /** `incr_instruction`. */
    method IncrInstruction(n: int)
      modifies this`instructionCount
      ensures instructionCount == old(instructionCount) + n
    {
      instructionCount := instructionCount + n;
    }

    /** `has_balance`: the quota is not yet used up. */
    predicate HasBalance()
      reads this`maxInstructionCount, this`instructionCount
    {
      maxInstructionCount > instructionCount
    }

    method SetQuota(val: int)
      modifies this`maxInstructionCount
      ensures maxInstructionCount == val
    {
      maxInstructionCount := val;
    }

    /** `done`: every goal holds (stopping at the first that does not);
      nothing is changed. */
    function Done(bot: BotView): Result<bool>
      requires Valid()
      reads this`rows, this`cols, this`hwalls, this`vwalls, this`cells, this`tiles, this`objects, this`goals
    {
      AllCompleted(goals, bot, View())
    }

    /** `check`: a second call raises; otherwise every goal is evaluated in
      order, the verdict is their conjunction, and the world is marked
      checked. A goal that raises leaves it unmarked. */
    method Check(bot: BotView) returns (r: Result<bool>)
      requires Valid()
      modifies this`isChecked
      ensures old(isChecked) ==> r == Failure(AlreadyChecked) && isChecked
      ensures !old(isChecked) ==> r == EveryGoal(goals, bot, View())
      ensures isChecked <==> old(isChecked) || r.Success?
    {
      if isChecked {
        return Failure(AlreadyChecked);
      }
      var success := true;
      var i := 0;
      while i < |goals|
        invariant 0 <= i <= |goals|
        invariant forall k :: 0 <= k < i ==> IsCompleted(goals[k], bot, View()).Success?
        invariant success <==> forall k :: 0 <= k < i ==> IsCompleted(goals[k], bot, View()).value
      {
        match IsCompleted(goals[i], bot, View())
        case Failure(e) =>
          EveryGoalFirstFault(goals, bot, View(), i);
          return Failure(e);
        case Success(b) =>
          if !b { success := false; }
        i := i + 1;
      }
      DoneAgreesWithCheck(goals, bot, View());
      isChecked := true;
      r := Success(success);
    }
  }

  function FilterPosition(goals: seq<Goal>): (r: seq<Goal>)
    ensures forall g :: g in r <==> g in goals && g.PositionGoal?
  {
    if |goals| == 0 then []
    else (if goals[0].PositionGoal? then [goals[0]] else []) + FilterPosition(goals[1..])
  }

  function FilterDrop(goals: seq<Goal>): (r: seq<Goal>)
    ensures forall g :: g in r <==> g in goals && g.DropGoal?
  {
    if |goals| == 0 then []
    else (if goals[0].DropGoal? then [goals[0]] else []) + FilterDrop(goals[1..])
  }

  /** `list(filter(...))` keeps order: filtering a concatenation filters
      each part. */
  lemma {:induction false} FilterPositionAppend(a: seq<Goal>, b: seq<Goal>)
    ensures FilterPosition(a + b) == FilterPosition(a) + FilterPosition(b)
  {
    if |a| > 0 {
      assert (a + b)[1..] == a[1..] + b;
      FilterPositionAppend(a[1..], b);
    } else {
      assert a + b == b;
    }
  }

  /** The first position goal of the filtered list, which `at_goal` reads,
      is the position goal that comes first in the goal list. */
  lemma {:induction false} FirstPositionGoal(goals: seq<Goal>, i: int)
    requires 0 <= i < |goals| && goals[i].PositionGoal?
    requires forall j :: 0 <= j < i ==> !goals[j].PositionGoal?
    ensures |FilterPosition(goals)| > 0 && FilterPosition(goals)[0] == goals[i]
  {
    if i > 0 {
      FirstPositionGoal(goals[1..], i - 1);
    }
  }

  lemma {:induction false} FilterDropAppend(a: seq<Goal>, b: seq<Goal>)
    ensures FilterDrop(a + b) == FilterDrop(a) + FilterDrop(b)
  {
    if |a| > 0 {
      assert (a + b)[1..] == a[1..] + b;
      FilterDropAppend(a[1..], b);
    } else {
      assert a + b == b;
    }
  }

  /** The first drop goal of the filtered list is the drop goal that
      comes first in the goal list. */
  lemma {:induction false} FirstDropGoal(goals: seq<Goal>, i: int)
    requires 0 <= i < |goals| && goals[i].DropGoal?
    requires forall j :: 0 <= j < i ==> !goals[j].DropGoal?
    ensures |FilterDrop(goals)| > 0 && FilterDrop(goals)[0] == goals[i]
  {
    if i > 0 {
      FirstDropGoal(goals[1..], i - 1);
    }
  }

  /** The verdict of `check` when the goal at `i` is the first to raise. */
  lemma {:induction false} EveryGoalFirstFault(goals: seq<Goal>, bot: BotView, world: WorldView, i: nat)
    requires WellFormed(world.grid) && i < |goals|
    requires forall k :: 0 <= k < i ==> IsCompleted(goals[k], bot, world).Success?
    requires IsCompleted(goals[i], bot, world).Failure?
    ensures EveryGoal(goals, bot, world) == Failure(IsCompleted(goals[i], bot, world).error)
  {
    if i > 0 {
      assert forall k :: 0 <= k < i - 1 ==> goals[1..][k] == goals[k + 1];
      EveryGoalFirstFault(goals[1..], bot, world, i - 1);
    }
  }
}
