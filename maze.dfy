/** `Maze` of `ottopy/maze.py` and `Robot` of `ottopy/robot.py`. The two
    refer to each other (a robot asks its maze to forward calls to the
    front end; the maze builds its robots), so they share this module.
    A robot keeps its position and heading in its own fields, changes the
    world only through the fields its `modifies` clauses name, and every
    front-end call goes through `Maze.JsCall`, which enforces the
    instruction quota. */
module Maze {
  import opened Common
  import opened Keys
  import opened Walls
  import opened Goals
  import opened World
  import opened Ledger

  /** A parameter of a front-end call. */
  datatype Param = PInt(i: int) | PStr(s: string)

  /** `Stats.report()`: capacity, load, moves so far and the basket. */
  datatype Stats = Stats(maxCapacity: Option<int>, currentLoad: int, totalMoves: int, basket: seq<string>)

  /** The payload of `current_call`: the front-end method to run, its
      parameters and, for a call within the quota, the first robot's stats. */
  datatype Call = Call(methodName: string, params: seq<Param>, stats: Option<Stats>)

  /** `[x[0] for x in last_picked]`. */
  function Names(picks: Picks): (names: seq<string>)
    ensures |names| == |picks|
    ensures forall i :: 0 <= i < |picks| ==> names[i] == picks[i].0
  {
    if |picks| == 0 then [] else Names(picks[..|picks| - 1]) + [picks[|picks| - 1].0]
  }

  /** `flags.get(k, 0) == 1`. */
  predicate FlagAt(flags: map<string, int>, k: string)
  {
    k in flags && flags[k] == 1
  }

  /** Deleting a present key shrinks a map by one. */
  lemma RemoveKeyCard<V>(m: map<string, V>, k: string)
    requires k in m
    ensures |m - {k}| == |m| - 1
  {
    assert m.Keys == (m - {k}).Keys + {k};
  }

  /** Where `n` calls of `_move` leave a robot that set out from (x0, y0)
      on the grid heading `d` and counted `i` moves. It has made `i` clear
      steps to p. When it stopped early, either the side ahead of p was
      blocked and it stayed at p, or it stepped on and the flag pickup
      there failed. */
  ghost predicate Walked(g: Grid, x0: int, y0: int, d: Direction, n: int, i: int, x: int, y: int)
    requires WellFormed(g)
  {
    var (px, py) := Ahead(x0, y0, d, i);
    && 0 <= i <= Max(n, 0) && ClearRun(g, x0, y0, d, i) && InGrid(g, px, py)
    && if i == Max(n, 0) || HasBlock(g, px, py, d) then x == px && y == py
       else x == px + Step(d).0 && y == py + Step(d).1
  }

  /** One call of `_move` from a cell of the grid heading `d`: the robot
      stays put when that side is blocked and steps on otherwise. */
  ghost predicate SteppedFrom(g: Grid, x0: int, y0: int, d: Direction, x: int, y: int)
    requires WellFormed(g) && InGrid(g, x0, y0)
  {
    if HasBlock(g, x0, y0, d) then x == x0 && y == y0
    else x == x0 + Step(d).0 && y == y0 + Step(d).1
  }

  /** A walk that stops at its `i`-th call ends where `Walked` says. */
  lemma WalkStops(g: Grid, x0: int, y0: int, d: Direction, n: int, i: int, sx: int, sy: int, x: int, y: int)
    requires WellFormed(g) && 0 <= i < n && ClearRun(g, x0, y0, d, i)
    requires (sx, sy) == Ahead(x0, y0, d, i)
    requires InGrid(g, sx, sy) && SteppedFrom(g, sx, sy, d, x, y)
    ensures Walked(g, x0, y0, d, n, i, x, y)
  {
    assert i != Max(n, 0);
    if HasBlock(g, sx, sy, d) {
      assert x == sx && y == sy;
    } else {
      assert x == sx + Step(d).0 && y == sy + Step(d).1;
    }
  }

  /** A clear step extends the clear run by one cell. */
  lemma WalkGoesOn(g: Grid, x0: int, y0: int, d: Direction, i: int, sx: int, sy: int, x: int, y: int)
    requires WellFormed(g) && 0 <= i && ClearRun(g, x0, y0, d, i)
    requires (sx, sy) == Ahead(x0, y0, d, i)
    requires InGrid(g, sx, sy) && !HasBlock(g, sx, sy, d) && SteppedFrom(g, sx, sy, d, x, y)
    ensures ClearRun(g, x0, y0, d, i + 1)
    ensures (x, y) == Ahead(x0, y0, d, i + 1)
  {
  }

  /** A walk that made all its calls ends where `Walked` says. */
  lemma WalkEnds(g: Grid, x0: int, y0: int, d: Direction, n: int, x: int, y: int)
    requires WellFormed(g) && ClearRun(g, x0, y0, d, Max(n, 0)) && InGrid(g, x, y)
    requires (x, y) == Ahead(x0, y0, d, Max(n, 0))
    ensures Walked(g, x0, y0, d, n, Max(n, 0), x, y)
  {
  }

  /** A move into a wall errors out where it stands: from a cell whose
      side ahead is blocked, no step is made or counted. */
  lemma WallAheadStops(g: Grid, x0: int, y0: int, d: Direction, n: int, i: int, x: int, y: int)
    requires WellFormed(g) && Walked(g, x0, y0, d, n, i, x, y) && n > 0
    requires InGrid(g, x0, y0) && HasBlock(g, x0, y0, d)
    ensures i == 0 && i < n && x == x0 && y == y0
  {
    if i > 0 {
      ClearRunStartsClear(g, x0, y0, d, i);
    }
  }

  class Maze {
    const model: WorldModel
    var robots: seq<Robot>
    var currentCall: Call

    /** `Maze.__init__`: one robot per robot record of the world, in order,
        each with its index. */
    constructor (model: WorldModel)
      ensures this.model == model && currentCall == Call("", [], None)
      ensures |robots| == |model.robots|
      ensures forall i :: 0 <= i < |robots| ==>
                robots[i].world == this && robots[i].index == i && robots[i].StartsAs(model.robots[i])
    {
      this.model := model;
      currentCall := Call("", [], None);
      robots := [];
      new;
      var i := 0;
      while i < |model.robots|
        invariant 0 <= i <= |model.robots| && |robots| == i
        invariant this.model == model && currentCall == Call("", [], None)
        invariant forall k :: 0 <= k < i ==> robots[k].world == this && robots[k].index == k && robots[k].StartsAs(model.robots[k])
      {
        var bot := new Robot(i, model.robots[i], this);
        robots := robots + [bot];
        i := i + 1;
      }
    }

    /** `js_call`: the call counter always advances; within the quota the
        call is published with the stats of robot 0 (an empty robot list is
        an IndexError); past it a `halt` is published and the run stops. */
    method JsCall(name: string, params: seq<Param>) returns (out: Outcome)
      modifies this`currentCall, model`jsCallCounter
      ensures model.jsCallCounter == old(model.jsCallCounter) + 1
      ensures out.Pass? <==> model.HasBalance() && |robots| > 0
      ensures out.Pass? ==> currentCall == Call(name, params, Some(robots[0].StatsReport()))
      ensures model.HasBalance() && |robots| == 0 ==> out == Fail(IndexError) && currentCall == old(currentCall)
      ensures !model.HasBalance() ==> out == Fail(QuotaExceeded) && currentCall == Call("halt", [], None)
    {
      model.jsCallCounter := model.jsCallCounter + 1;
      if model.HasBalance() {
        if |robots| == 0 {
          return Fail(IndexError);
        }
        currentCall := Call(name, params, Some(robots[0].StatsReport()));
        out := Pass;
      } else {
        currentCall := Call("halt", [], None);
        out := Fail(QuotaExceeded);
      }
    }

    /** `bot(i)`: Python indexing of the robot list. */
    function Bot(i: int): (r: Result<Robot>)
      reads this`robots
      ensures r.Success? <==> -|robots| <= i < |robots|
      ensures r.Success? ==> r.value in robots
      ensures 0 <= i < |robots| ==> r == Success(robots[i])
      ensures -|robots| <= i < 0 ==> r == Success(robots[i + |robots|])
    {
      match PyIndex(|robots|, i)
      case Some(j) => Success(robots[j])
      case None => Failure(IndexError)
    }

    /** `check`: the world's one-shot check on the chosen robot, then a
        success or an error message to the front end. */
    method Check(botIndex: int) returns (r: Result<bool>)
      requires model.Valid()
      modifies this`currentCall, model`isChecked, model`jsCallCounter
      ensures Bot(botIndex).Failure? ==> r == Failure(IndexError) && model.isChecked == old(model.isChecked)
      ensures Bot(botIndex).Success? && old(model.isChecked) ==> r == Failure(AlreadyChecked)
      ensures Bot(botIndex).Success? && !old(model.isChecked) ==>
        var verdict := EveryGoal(model.goals, Bot(botIndex).value.View(), model.View());
        && (verdict.Failure? ==> r == verdict && !model.isChecked)
        && (verdict.Success? ==>
              && model.isChecked
              && (r.Success? <==> model.HasBalance() && |robots| > 0)
              && (r.Success? ==> r == verdict)
              && (r.Success? ==> currentCall.methodName == if verdict.value then "set_succes_msg" else "error"))
    {
      match Bot(botIndex)
      case Failure(e) => r := Failure(e);
      case Success(bot) =>
        var val := model.Check(bot.View());
        if val.Failure? {
          return val;
        }
        var sent;
        if val.value {
          sent := JsCall("set_succes_msg", [PStr("\U{1F389} Task Completed")]);
        } else {
          sent := JsCall("error", [PStr("One Or More Goal are Not Completed.")]);
        }
        r := if sent.Pass? then val else Failure(sent.error);
    }
  }

  class Robot {
    const index: int
    const world: Maze
    var x: int
    var y: int
    var dir: int
    const traceColor: string
    var collections: Tallies
    var lastPicked: Picks
    var countReport: seq<string>
    var maxCapacity: Option<int>
    var moveCount: int
    var flagCount: int

    /** `Robot.__init__`: placed as its record says, carrying nothing. */
    constructor (index: int, start: RobotModel, world: Maze)
      ensures this.index == index && this.world == world && StartsAs(start)
    {
      this.index := index;
      this.world := world;
      x, y, dir, traceColor := start.x, start.y, start.orientation, start.traceColor;
      collections := map[];
      lastPicked := [];
      countReport := [];
      maxCapacity := None;
      moveCount := 0;
      flagCount := 0;
    }

    predicate StartsAs(start: RobotModel)
      reads this
    {
      && x == start.x && y == start.y && dir == start.orientation && traceColor == start.traceColor
      && collections == map[] && lastPicked == [] && countReport == []
      && maxCapacity == None && moveCount == 0 && flagCount == 0
    }

    /** The key `"x,y"` of the robot's position. */
    function Key(): string
      reads this`x, this`y
    {
      PosKey(x, y)
    }

    /** What goals read of this robot. */
    function View(): BotView
      reads this`x, this`y, this`countReport, this`collections, this`flagCount
    {
      BotView(x, y, countReport, collections, flagCount)
    }

    /** The object table with this robot's tallies and ledger. */
    function Holding(): Hold
      reads world.model`objects, this`collections, this`lastPicked
    {
      Hold(world.model.objects, collections, lastPicked)
    }

    /** `basket`: the names of the objects carried, oldest first. */
    function Basket(): (names: seq<string>)
      reads this`lastPicked
      ensures |names| == |lastPicked|
      ensures forall i :: 0 <= i < |lastPicked| ==> names[i] == lastPicked[i].0
    {
      Names(lastPicked)
    }

    function StatsReport(): Stats
      reads this`maxCapacity, this`lastPicked, this`moveCount
    {
      Stats(maxCapacity, |lastPicked|, moveCount, Basket())
    }

    /** `carries_object`: the basket is not empty. */
    predicate CarriesObject()
      reads this`lastPicked
      ensures CarriesObject() <==> lastPicked != []
    {
      |Basket()| > 0
    }

    /** `carries_flag`, as written: more than one flag collected. */
    predicate CarriesFlag()
      reads this`flagCount
    {
      flagCount > 1
    }

    /** The evident intent of `carries_flag`: at least one flag collected. */
    predicate CarriesFlagIntended()
      reads this`flagCount
    {
      flagCount >= 1
    }

    /** `on_flag`: the flag table holds 1 under the robot's key. */
    predicate OnFlag()
      reads this`x, this`y, world.model`flags
    {
      FlagAt(world.model.flags, Key())
    }

    /** The state of the cell `cells[x - 1][y - 1]` reaches. */
    function CellHere(): (r: Result<CellInfo>)
      requires world.model.Valid()
      reads this`x, this`y, this`dir, world.model`rows, world.model`cols, world.model`hwalls, world.model`vwalls, world.model`cells, world.model`tiles
      ensures r.Success? <==> world.model.CellPos(x, y).Success?
      ensures r.Success? ==> (r.value.x, r.value.y) == world.model.CellPos(x, y).value
    {
      match world.model.CellPos(x, y)
      case Failure(e) => Failure(e)
      case Success((cx, cy)) => Success(world.model.cells[cx - 1][cy - 1])
    }

    /** `front_is_clear`. From a cell of the grid: the cell ahead is on the
        grid and no NORMAL wall stands between. */
    function FrontIsClear(): (r: Result<bool>)
      requires WellFormed(world.model.Walls())
      reads this`x, this`y, this`dir, world.model`rows, world.model`cols, world.model`hwalls, world.model`vwalls
      ensures r.Success? <==> world.model.CellPos(x, y).Success? && 0 <= dir < 4
      ensures r.Success? && InGrid(world.model.Walls(), x, y) ==>
        var d := FromIndex(dir).value;
        (r.value <==> InGrid(world.model.Walls(), x + Step(d).0, y + Step(d).1) && !HasWall(world.model.Walls(), x, y, d))
    {
      if 0 <= dir < 4 && InGrid(world.model.Walls(), x, y) then
        BorderIsEdge(world.model.Walls(), x, y, FromIndex(dir).value);
        world.model.IsClear(x, y, DirNum(dir))
      else world.model.IsClear(x, y, DirNum(dir))
    }

    /** `right_is_clear`: the side a quarter turn clockwise, which always
        names a direction. */
    function RightIsClear(): (r: Result<bool>)
      requires WellFormed(world.model.Walls())
      reads this`x, this`y, this`dir, world.model`rows, world.model`cols, world.model`hwalls, world.model`vwalls
      ensures r.Success? <==> world.model.CellPos(x, y).Success?
      ensures r.Success? ==>
        var (cx, cy) := world.model.CellPos(x, y).value;
        (r.value <==> !HasBlock(world.model.Walls(), cx, cy, FromIndex((dir + 3) % 4).value))
    {
      world.model.IsClear(x, y, DirNum((dir + 3) % 4))
    }

    /** `wall_in_front`: the front is blocked. */
    function WallInFront(): (r: Result<bool>)
      requires WellFormed(world.model.Walls())
      reads this`x, this`y, this`dir, world.model`rows, world.model`cols, world.model`hwalls, world.model`vwalls
      ensures r.Success? <==> FrontIsClear().Success?
      ensures r.Success? ==>
        var (cx, cy) := world.model.CellPos(x, y).value;
        (r.value <==> HasBlock(world.model.Walls(), cx, cy, FromIndex(dir).value))
    {
      match FrontIsClear()
      case Failure(e) => Failure(e)
      case Success(b) => Success(!b)
    }

    /** `wall_on_right`: the right side is blocked. */
    function WallOnRight(): (r: Result<bool>)
      requires WellFormed(world.model.Walls())
      reads this`x, this`y, this`dir, world.model`rows, world.model`cols, world.model`hwalls, world.model`vwalls
      ensures r.Success? <==> world.model.CellPos(x, y).Success?
      ensures r.Success? ==>
        var (cx, cy) := world.model.CellPos(x, y).value;
        (r.value <==> HasBlock(world.model.Walls(), cx, cy, FromIndex((dir + 3) % 4).value))
    {
      match RightIsClear()
      case Failure(e) => Failure(e)
      case Success(b) => Success(!b)
    }

    /** `message_here`: the cell reached carries a message. */
    function MessageHere(): (r: Result<bool>)
      requires world.model.Valid()
      reads this`x, this`y, this`dir, world.model`rows, world.model`cols, world.model`hwalls, world.model`vwalls, world.model`cells, world.model`tiles
      ensures r.Success? <==> world.model.CellPos(x, y).Success?
      ensures r.Success? ==> (r.value <==> CellHere().value.msg.Some?)
    {
      match CellHere()
      case Failure(e) => Failure(e)
      case Success(c) => Success(c.msg.Some?)
    }

    /** `report`: the message is appended to the robot's reports. */
    method Report(msg: string)
      modifies this`countReport
      ensures countReport == old(countReport) + [msg]
    {
      countReport := countReport + [msg];
    }

    /** `_pick_flag`: on a flag, count it, delete it from the world and tell
        the front end; elsewhere nothing happens. Either way the flags
        collected plus the flags left stay the same. */
    method PickFlag() returns (out: Outcome)
      modifies this`flagCount, world`currentCall, world.model`flags, world.model`jsCallCounter
      ensures flagCount == old(flagCount) + (if old(OnFlag()) then 1 else 0)
      ensures world.model.flags == if old(OnFlag()) then old(world.model.flags) - {Key()} else old(world.model.flags)
      ensures flagCount + |world.model.flags| == old(flagCount + |world.model.flags|)
      ensures old(OnFlag()) && old(flagCount) >= 0 ==> CarriesFlagIntended()
      ensures !old(OnFlag()) ==> out == Pass && world.currentCall == old(world.currentCall)
      ensures out.Fail? ==> out.error == QuotaExceeded || out.error == IndexError
    {
      if OnFlag() {
        flagCount := flagCount + 1;
        var removed := world.model.RemoveFlag(x, y);
        RemoveKeyCard(old(world.model.flags), Key());
        out := world.JsCall("remove_flag", [PInt(x), PInt(y)]);
      } else {
        out := Pass;
      }
    }

    /** The clear branch of `_move`: one cell ahead, a flag there collected,
        and the move counted when that went through. */
    method Advance() returns (out: Outcome)
      requires WellFormed(world.model.Walls()) && FrontIsClear() == Success(true)
      modifies this`x, this`y, this`flagCount, this`moveCount, world`currentCall, world.model`flags, world.model`jsCallCounter
      ensures 0 <= dir < 4
      ensures x == old(x) + Step(FromIndex(dir).value).0 && y == old(y) + Step(FromIndex(dir).value).1
      ensures old(InGrid(world.model.Walls(), x, y)) ==> InGrid(world.model.Walls(), x, y)
      ensures flagCount + |world.model.flags| == old(flagCount + |world.model.flags|)
      ensures world.model.flags ==
        if FlagAt(old(world.model.flags), Key()) then old(world.model.flags) - {Key()} else old(world.model.flags)
      ensures world.model.flags.Keys <= old(world.model.flags.Keys)
      ensures moveCount == old(moveCount) + (if out.Pass? then 1 else 0)
    {
      var d := FromIndex(dir).value;
      ghost var g := world.model.Walls();
      if InGrid(g, x, y) {
        UnblockedStepStaysInGrid(g, x, y, d);
      }
      x, y := x + Step(d).0, y + Step(d).1;
      out := PickFlag();
      assert world.model.Walls() == g && dir == old(dir);
      if out.Pass? {
        moveCount := moveCount + 1;
      }
    }

    /** The blocked branch of `_move`: the front end is told where the
        robot stands, and the step fails with a collision. */
    method Collide() returns (out: Outcome)
      modifies world`currentCall, world.model`jsCallCounter
      ensures out.Fail?
      ensures world.model.HasBalance() && |world.robots| > 0 ==> out == Fail(WallCollision)
    {
      var sent := world.JsCall("move_to", [PInt(index), PInt(x), PInt(y)]);
      out := if sent.Fail? then sent else Fail(WallCollision);
    }

    /** `_move`: one step ahead when the front is clear (collecting a flag
        there), otherwise a collision after reporting the position. */
    method StepOnce() returns (out: Outcome)
      requires WellFormed(world.model.Walls())
      modifies this`x, this`y, this`flagCount, this`moveCount, world`currentCall, world.model`flags, world.model`jsCallCounter
      ensures flagCount + |world.model.flags| == old(flagCount + |world.model.flags|)
      ensures world.model.flags.Keys <= old(world.model.flags.Keys)
      ensures old(InGrid(world.model.Walls(), x, y)) ==> InGrid(world.model.Walls(), x, y)
      ensures out.Pass? <==> moveCount == old(moveCount) + 1
      ensures out.Fail? ==> moveCount == old(moveCount)
      ensures out.Pass? ==>
        0 <= dir < 4 && x == old(x) + Step(FromIndex(dir).value).0 && y == old(y) + Step(FromIndex(dir).value).1
      ensures var clear := old(FrontIsClear());
        && (clear.Failure? ==> out == Fail(clear.error) && x == old(x) && y == old(y))
        && (clear == Success(false) ==>
              && out.Fail? && x == old(x) && y == old(y)
              && (world.model.HasBalance() && |world.robots| > 0 ==> out == Fail(WallCollision)))
        && (clear == Success(true) ==>
              0 <= dir < 4 && x == old(x) + Step(FromIndex(dir).value).0 && y == old(y) + Step(FromIndex(dir).value).1)
      ensures old(InGrid(world.model.Walls(), x, y)) && 0 <= dir < 4 ==>
        && SteppedFrom(world.model.Walls(), old(x), old(y), FromIndex(dir).value, x, y)
        && (old(HasBlock(world.model.Walls(), x, y, FromIndex(dir).value)) ==> out.Fail?)
    {
      if 0 <= dir < 4 && InGrid(world.model.Walls(), x, y) {
        BorderIsEdge(world.model.Walls(), x, y, FromIndex(dir).value);
      }
      var clear := FrontIsClear();
      if clear.Failure? {
        return Fail(clear.error);
      }
      if clear.value {
        out := Advance();
      } else {
        out := Collide();
      }
    }

    /** `move(step)`: all `step` instructions are charged first; then one
        step at a time, stopping at the first that fails; then the final
        position goes to the front end. From a cell of the grid, the robot
        ends where `Walked` says; in particular a move into a wall errors
        out where the robot stands. A robot on the grid stays on it, and
        flags collected are exactly flags removed from the world. */
    method Move(step: int) returns (out: Outcome)
      requires WellFormed(world.model.Walls())
      modifies this`x, this`y, this`flagCount, this`moveCount, world`currentCall
      modifies world.model`flags, world.model`jsCallCounter, world.model`instructionCount
      ensures world.model.instructionCount == old(world.model.instructionCount) + step
      ensures dir == old(dir)
      ensures old(InGrid(world.model.Walls(), x, y)) ==> InGrid(world.model.Walls(), x, y)
      ensures flagCount + |world.model.flags| == old(flagCount + |world.model.flags|)
      ensures world.model.flags.Keys <= old(world.model.flags.Keys)
      ensures out.Pass? ==> moveCount == old(moveCount) + Max(step, 0)
      ensures moveCount != old(moveCount) + Max(step, 0) ==> out.Fail?
      ensures out.Pass? && step > 0 ==>
        0 <= dir < 4 && (x, y) == Ahead(old(x), old(y), FromIndex(dir).value, step)
      ensures old(InGrid(world.model.Walls(), x, y)) && 0 <= dir < 4 ==>
        Walked(world.model.Walls(), old(x), old(y), FromIndex(dir).value, step, moveCount - old(moveCount), x, y)
      ensures step > 0 && 0 <= dir < 4 && old(InGrid(world.model.Walls(), x, y)) &&
              old(HasBlock(world.model.Walls(), x, y, FromIndex(dir).value)) ==>
        out.Fail? && x == old(x) && y == old(y) && moveCount == old(moveCount)
    {
      ghost var (x0, y0) := (x, y);
      world.model.IncrInstruction(step);
      out := Walk(step);
      if 0 <= dir < 4 && InGrid(world.model.Walls(), x0, y0) && step > 0 && HasBlock(world.model.Walls(), x0, y0, FromIndex(dir).value) {
        WallAheadStops(world.model.Walls(), x0, y0, FromIndex(dir).value, step, moveCount - old(moveCount), x, y);
      }
      if out.Pass? {
        out := world.JsCall("move_to", [PInt(index), PInt(x), PInt(y)]);
      }
    }

    /** The loop of `move`: `n` calls of `_move`, stopping at the first
        that fails. It passes exactly when every call counted its move. */
    method Walk(n: int) returns (out: Outcome)
      requires WellFormed(world.model.Walls())
      modifies this`x, this`y, this`flagCount, this`moveCount, world`currentCall, world.model`flags, world.model`jsCallCounter
      ensures dir == old(dir)
      ensures old(InGrid(world.model.Walls(), x, y)) ==> InGrid(world.model.Walls(), x, y)
      ensures flagCount + |world.model.flags| == old(flagCount + |world.model.flags|)
      ensures world.model.flags.Keys <= old(world.model.flags.Keys)
      ensures out.Pass? <==> moveCount == old(moveCount) + Max(n, 0)
      ensures out.Pass? && n > 0 ==>
        0 <= dir < 4 && (x, y) == Ahead(old(x), old(y), FromIndex(dir).value, n)
      ensures old(InGrid(world.model.Walls(), x, y)) && 0 <= dir < 4 ==>
        Walked(world.model.Walls(), old(x), old(y), FromIndex(dir).value, n, moveCount - old(moveCount), x, y)
    {
      ghost var g := world.model.Walls();
      ghost var onGrid := InGrid(g, x, y) && 0 <= dir < 4;
      ghost var d := if 0 <= dir < 4 then FromIndex(dir).value else East;
      var i := 0;
      while i < n
        invariant 0 <= i <= Max(n, 0)
        invariant world.model.Walls() == g
        invariant old(InGrid(world.model.Walls(), x, y)) ==> InGrid(g, x, y)
        invariant flagCount + |world.model.flags| == old(flagCount + |world.model.flags|)
        invariant world.model.flags.Keys <= old(world.model.flags.Keys)
        invariant moveCount == old(moveCount) + i
        invariant i > 0 ==> 0 <= dir < 4
        invariant dir == old(dir)
        invariant (x, y) == Ahead(old(x), old(y), d, i)
        invariant onGrid ==> ClearRun(g, old(x), old(y), d, i) && InGrid(g, x, y) && FromIndex(dir).value == d
      {
        ghost var sx, sy := x, y;
        assert onGrid ==> InGrid(world.model.Walls(), x, y) && 0 <= dir < 4;
        var r := StepOnce();
        assert world.model.Walls() == g;
        if r.Fail? {
          assert moveCount - old(moveCount) == i;
          if onGrid {
            WalkStops(g, old(x), old(y), d, n, i, sx, sy, x, y);
          }
          return r;
        }
        AheadNext(old(x), old(y), d, i);
        if onGrid {
          WalkGoesOn(g, old(x), old(y), d, i, sx, sy, x, y);
        }
        i := i + 1;
      }
      assert moveCount - old(moveCount) == Max(n, 0);
      if onGrid {
        WalkEnds(g, old(x), old(y), d, n, x, y);
      }
      out := Pass;
    }

    /** `turn_left`: a quarter turn anticlockwise (east, north, west, south
        and round again). */
    method TurnLeft() returns (out: Outcome)
      modifies this`dir, world`currentCall, world.model`instructionCount, world.model`jsCallCounter
      ensures world.model.instructionCount == old(world.model.instructionCount) + 1
      ensures dir == (old(dir) + 1) % 4
      ensures world.model.jsCallCounter == old(world.model.jsCallCounter) + 1
      ensures out.Pass? <==> world.model.HasBalance() && |world.robots| > 0
      ensures out.Pass? ==> world.currentCall == Call("turn_left", [PInt(index)], Some(world.robots[0].StatsReport()))
      ensures !world.model.HasBalance() ==> out == Fail(QuotaExceeded) && world.currentCall == Call("halt", [], None)
    {
      world.model.IncrInstruction(1);
      dir := (dir + 1) % 4;
      out := world.JsCall("turn_left", [PInt(index)]);
    }

    /** `build_wall`: a wall is built only where a goal wall is marked and
        the front is clear; it then blocks the front. A blocked front is an
        error. */
    method BuildWall() returns (out: Outcome)
      requires world.model.Valid()
      modifies world`currentCall, world.model`hwalls, world.model`vwalls
      modifies world.model`instructionCount, world.model`jsCallCounter
      ensures world.model.Valid()
      ensures world.model.instructionCount == old(world.model.instructionCount) + 1
      ensures old(FrontIsClear()).Failure? ==>
        out == Fail(old(FrontIsClear()).error) && world.model.Walls() == old(world.model.Walls())
      ensures old(FrontIsClear()) == Success(false) ==>
        out == Fail(WallAlreadyExists) && world.model.Walls() == old(world.model.Walls())
      ensures old(FrontIsClear()) == Success(true) ==>
        var (cx, cy) := old(world.model.CellPos(x, y)).value;
        var d := FromIndex(dir).value;
        if old(HasGoalWall(world.model.Walls(), cx, cy, d)) then
          world.model.Walls() == SetSlot(old(world.model.Walls()), cx, cy, d, NORMAL)
          && FrontIsClear() == Success(false)
        else
          world.model.Walls() == old(world.model.Walls()) && out == Pass
    {
      var clear := FrontIsClear();
      world.model.IncrInstruction(1);
      if clear.Failure? {
        return Fail(clear.error);
      }
      if !clear.value {
        return Fail(WallAlreadyExists);
      }
      out := BuildAhead();
    }

    /** The clear branch of `build_wall`: a NORMAL wall where a goal wall
        is marked, which then blocks the front; elsewhere nothing. */
    method BuildAhead() returns (out: Outcome)
      requires world.model.Valid() && FrontIsClear() == Success(true)
      modifies world`currentCall, world.model`hwalls, world.model`vwalls, world.model`jsCallCounter
      ensures world.model.Valid()
      ensures var (cx, cy) := old(world.model.CellPos(x, y)).value;
        var d := FromIndex(dir).value;
        if old(HasGoalWall(world.model.Walls(), cx, cy, d)) then
          world.model.Walls() == SetSlot(old(world.model.Walls()), cx, cy, d, NORMAL)
          && FrontIsClear() == Success(false)
        else
          world.model.Walls() == old(world.model.Walls()) && out == Pass
    {
      var (cx, cy) := world.model.CellPos(x, y).value;
      var d := FromIndex(dir).value;
      out := Pass;
      ghost var g0 := world.model.Walls();
      if HasGoalWall(world.model.Walls(), cx, cy, d) {
        out := WallAt(cx, cy, d, NORMAL);
        CellAtSize(world.model.Walls(), g0, x, y);
        assert HasWall(world.model.Walls(), cx, cy, d);
      }
    }

    /** `remove_wall`: a blocked front has its slot cleared, which opens it
        unless the block was the grid's border. A clear front is an error. */
    method RemoveWall() returns (out: Outcome)
      requires world.model.Valid()
      modifies world`currentCall, world.model`hwalls, world.model`vwalls
      modifies world.model`instructionCount, world.model`jsCallCounter
      ensures world.model.Valid()
      ensures world.model.instructionCount == old(world.model.instructionCount) + 1
      ensures old(FrontIsClear()).Failure? ==>
        out == Fail(old(FrontIsClear()).error) && world.model.Walls() == old(world.model.Walls())
      ensures old(FrontIsClear()) == Success(true) ==>
        out == Fail(NoWallExists) && world.model.Walls() == old(world.model.Walls())
      ensures old(FrontIsClear()) == Success(false) ==>
        var (cx, cy) := old(world.model.CellPos(x, y)).value;
        var d := FromIndex(dir).value;
        && world.model.Walls() == SetSlot(old(world.model.Walls()), cx, cy, d, 0)
        && FrontIsClear() == Success(!HasBorder(world.model.Walls(), cx, cy, d))
    {
      var clear := FrontIsClear();
      world.model.IncrInstruction(1);
      if clear.Failure? {
        return Fail(clear.error);
      }
      if clear.value {
        return Fail(NoWallExists);
      }
      out := ClearAhead();
    }

    /** The blocked branch of `remove_wall`: the slot ahead is cleared, so
        the front is clear unless it faces the border. */
    method ClearAhead() returns (out: Outcome)
      requires world.model.Valid() && FrontIsClear() == Success(false)
      modifies world`currentCall, world.model`hwalls, world.model`vwalls, world.model`jsCallCounter
      ensures world.model.Valid()
      ensures var (cx, cy) := old(world.model.CellPos(x, y)).value;
        var d := FromIndex(dir).value;
        && world.model.Walls() == SetSlot(old(world.model.Walls()), cx, cy, d, 0)
        && FrontIsClear() == Success(!HasBorder(world.model.Walls(), cx, cy, d))
    {
      var (cx, cy) := world.model.CellPos(x, y).value;
      var d := FromIndex(dir).value;
      out := WallAt(cx, cy, d, 0);
      assert world.model.CellPos(x, y) == Success((cx, cy));
    }

    /** `Cell.add_wall` and `Cell.remove_wall` with this robot's maze as the
        callback: the slot of side `d` of cell (cx, cy) is set to `v`, then
        the front end is told which wall changed. */
    method WallAt(cx: int, cy: int, d: Direction, v: int) returns (out: Outcome)
      requires world.model.Valid() && InGrid(world.model.Walls(), cx, cy) && (v == NORMAL || v == 0)
      modifies world`currentCall, world.model`hwalls, world.model`vwalls, world.model`jsCallCounter
      ensures world.model.Valid()
      ensures world.model.Walls() == SetSlot(old(world.model.Walls()), cx, cy, d, v)
      ensures Slot(world.model.Walls(), cx, cy, d) == v
      ensures out.Fail? ==> out.error == QuotaExceeded || out.error == IndexError
    {
      if v == NORMAL {
        world.model.CellAddWall(cx, cy, d, Normal);
      } else {
        world.model.CellRemoveWall(cx, cy, d);
      }
      ghost var g, cells, tiles := world.model.Walls(), world.model.cells, world.model.tiles;
      var (wx, wy) := WallCord(cx, cy, d);
      var verb := if v == NORMAL then "add_wall" else "remove_wall";
      out := world.JsCall(verb, [PInt(wx), PInt(wy), PStr(UiDirection(d))]);
      assert world.model.Walls() == g && world.model.cells == cells && world.model.tiles == tiles;
    }

    /** `on_object`: one instruction, then whether a take is allowed. */
    method OnObject(objType: Option<string>) returns (b: bool)
      modifies world.model`instructionCount
      ensures world.model.instructionCount == old(world.model.instructionCount) + 1
      ensures b == Pickable(Holding(), Key(), objType)
    {
      world.model.IncrInstruction(1);
      b := Pickable(Holding(), Key(), objType);
    }

    /** `object_here`: one instruction, then the name of the pile here
        unless the robot has taken all of it. */
    method ObjectHere() returns (r: Option<string>)
      modifies world.model`instructionCount
      ensures world.model.instructionCount == old(world.model.instructionCount) + 1
      ensures r == NameHere(Holding(), Key())
      ensures r.Some? ==> Key() in world.model.objects && r.value == world.model.objects[Key()].name
    {
      world.model.IncrInstruction(1);
      var k := Key();
      if k in world.model.objects {
        var p := world.model.objects[k];
        if k in collections && p.name in collections[k] && collections[k][p.name] == p.count {
          return None;
        }
        return Some(p.name);
      }
      return None;
    }

    /** The robot carries as many objects as it may. */
    predicate AtCapacity()
      reads this`maxCapacity, this`lastPicked
    {
      maxCapacity.Some? && maxCapacity.value <= |lastPicked|
    }

    /** `take`: refused at capacity before anything is charged; then one
        instruction, the cell's pick permission, and `on_object` (a second
        instruction). A take that goes ahead updates the tables as
        `Ledger.Take` says and keeps the tallies in step with the ledger. */
    method Take(objType: Option<string>) returns (out: Outcome)
      requires world.model.Valid()
      modifies this`collections, this`lastPicked, world`currentCall
      modifies world.model`objects, world.model`instructionCount, world.model`jsCallCounter
      ensures old(AtCapacity()) ==>
        out == Fail(CapacityExceeded) && Holding() == old(Holding())
        && world.model.instructionCount == old(world.model.instructionCount)
      ensures !old(AtCapacity()) && old(CellHere()).Failure? ==>
        out == Fail(IndexError) && Holding() == old(Holding())
        && world.model.instructionCount == old(world.model.instructionCount) + 1
      ensures !old(AtCapacity()) && old(CellHere()).Success? && !old(CellHere()).value.pick ==>
        out == Fail(CantPick) && Holding() == old(Holding())
        && world.model.instructionCount == old(world.model.instructionCount) + 1
      ensures !old(AtCapacity()) && old(CellHere()).Success? && old(CellHere()).value.pick ==>
        && world.model.instructionCount == old(world.model.instructionCount) + 2
        && (!old(Pickable(Holding(), Key(), objType)) ==> out == Fail(NothingToPick) && Holding() == old(Holding()))
        && (old(Pickable(Holding(), Key(), objType)) ==>
              Holding() == Ledger.Take(old(Holding()), Key())
              && (out.Fail? ==> out.error == QuotaExceeded || out.error == IndexError))
      ensures old(Consistent(collections, lastPicked)) ==> Consistent(collections, lastPicked)
    {
      if maxCapacity.Some? && maxCapacity.value <= |lastPicked| {
        return Fail(CapacityExceeded);
      }
      var here := CellHere();
      world.model.IncrInstruction(1);
      if here.Failure? {
        return Fail(here.error);
      }
      if !here.value.pick {
        return Fail(CantPick);
      }
      var pickable := OnObject(objType);
      if !pickable {
        return Fail(NothingToPick);
      }
      out := TakeHere();
    }

    /** The part of `take` past its checks: one more object of the pile
      here is tallied and logged; the pile leaves the world when its tally
      reaches its count, and the front end hears of it. */
    method TakeHere() returns (out: Outcome)
      requires Key() in world.model.objects
      modifies this`collections, this`lastPicked, world`currentCall, world.model`objects, world.model`jsCallCounter
      ensures Holding() == Ledger.Take(old(Holding()), Key())
      ensures out.Fail? ==> out.error == QuotaExceeded || out.error == IndexError
      ensures old(Consistent(collections, lastPicked)) ==> Consistent(collections, lastPicked)
    {
      ghost var before := Holding();
      var k := Key();
      var p := world.model.objects[k];
      var coll := if k in collections then collections[k] else map[];
      var picked := Tally(collections, k, p.name) + 1;
      collections := collections[k := coll[p.name := picked]];
      lastPicked := lastPicked + [(p.name, k)];
      if p.count == picked {
        world.model.objects := world.model.objects - {k};
      }
      assert Holding() == Ledger.Take(before, k);
      ghost var after := Holding();
      out := Pass;
      if p.count == picked {
        out := world.JsCall("remove_object", [PInt(x), PInt(y)]);
      } else if p.count > picked {
        out := world.JsCall("update_object", [PInt(x), PInt(y), PInt(p.count - picked)]);
      }
      assert Holding() == after;
      if Consistent(before.tallies, before.picks) {
        TakeConsistent(before, k);
      }
    }

    /** `put`: refused where dropping is not allowed before anything is
        charged; then one instruction, and with a non-empty ledger the
        tables change as `Ledger.Put` says and stay in step. */
    method Put() returns (out: Outcome)
      requires world.model.Valid()
      modifies this`collections, this`lastPicked, world`currentCall
      modifies world.model`objects, world.model`instructionCount, world.model`jsCallCounter
      ensures old(CellHere()).Failure? ==>
        out == Fail(IndexError) && Holding() == old(Holding())
        && world.model.instructionCount == old(world.model.instructionCount)
      ensures old(CellHere()).Success? && !old(CellHere()).value.drop ==>
        out == Fail(CantDrop) && Holding() == old(Holding())
        && world.model.instructionCount == old(world.model.instructionCount)
      ensures old(CellHere()).Success? && old(CellHere()).value.drop ==>
        && world.model.instructionCount == old(world.model.instructionCount) + 1
        && (old(lastPicked) == [] ==> out == Pass && Holding() == old(Holding()))
        && (old(lastPicked) != [] ==> Holding() == Ledger.Put(old(Holding()), Key()))
      ensures old(Consistent(collections, lastPicked)) ==> Consistent(collections, lastPicked)
    {
      var here := CellHere();
      if here.Failure? {
        return Fail(here.error);
      }
      if !here.value.drop {
        return Fail(CantDrop);
      }
      world.model.IncrInstruction(1);
      out := Pass;
      if |lastPicked| > 0 {
        if Consistent(collections, lastPicked) {
          PutConsistent(Holding(), Key());
        }
        out := PutHere();
      }
    }

    /** The part of `put` for a non-empty ledger: the last entry is popped;
      when its origin still has a tally for the name, the tally drops by
      one and the pile here is set to one more object of that name, which
      the front end hears of. */
    method PutHere() returns (out: Outcome)
      requires lastPicked != []
      modifies this`collections, this`lastPicked, world`currentCall, world.model`objects, world.model`jsCallCounter
      ensures Holding() == Ledger.Put(old(Holding()), Key())
      ensures out.Fail? ==> out.error == QuotaExceeded || out.error == IndexError
    {
      var k := Key();
      ghost var h := Holding();
      ghost var target := Ledger.Put(h, k);
      ghost var objects := h.objects;
      ghost var n, origin := h.picks[|h.picks| - 1].0, h.picks[|h.picks| - 1].1;
      ghost var here := if k in objects && objects[k].name == n then objects[k].count else 0;
      PutObjects(h, k, n, origin);
      var name, counted := Unpick(k);
      assert collections == target.tallies && lastPicked == target.picks;
      out := Pass;
      if counted {
        assert origin in h.tallies && n in h.tallies[origin];
        assert world.model.objects == objects && name == n && Key() == k;
        out := DropHere(name);
        assert Key() == k;
        assert world.model.objects == objects[k := Pile(n, here + 1)];
        assert world.model.objects == target.objects;
      } else {
        assert world.model.objects == objects == target.objects;
      }
      assert Holding() == target;
    }

    /** `add_object` on the robot's cell with the front end as callback:
        the pile here becomes `name` with one more than there was of it. */
    method DropHere(name: string) returns (out: Outcome)
      modifies world`currentCall, world.model`objects, world.model`jsCallCounter
      ensures var objects, k := old(world.model.objects), Key();
        world.model.objects == objects[k := Pile(name, (if k in objects && objects[k].name == name then objects[k].count else 0) + 1)]
      ensures out.Fail? ==> out.error == QuotaExceeded || out.error == IndexError
    {
      var k := Key();
      var count := (if k in world.model.objects && world.model.objects[k].name == name then world.model.objects[k].count else 0) + 1;
      world.model.AddObject(x, y, name, count);
      out := world.JsCall("add_object", [PInt(x), PInt(y), PStr(name), PInt(count)]);
    }

    /** The ledger half of `put`: the last entry is popped and, when its
        origin still has a tally for the name, that tally drops by one. */
    method Unpick(ghost k: string) returns (name: string, counted: bool)
      requires lastPicked != []
      modifies this`collections, this`lastPicked
      ensures name == old(lastPicked[|lastPicked| - 1].0)
      ensures counted <==> old(var origin := lastPicked[|lastPicked| - 1].1; origin in collections && name in collections[origin])
      ensures collections == Ledger.Put(old(Holding()), k).tallies && lastPicked == Ledger.Put(old(Holding()), k).picks
    {
      var origin;
      name, origin := lastPicked[|lastPicked| - 1].0, lastPicked[|lastPicked| - 1].1;
      lastPicked := lastPicked[..|lastPicked| - 1];
      counted := origin in collections && name in collections[origin];
      if counted {
        var coll := collections[origin];
        coll := if coll[name] > 1 then coll[name := coll[name] - 1] else coll - {name};
        collections := collections[origin := coll];
      }
    }

    /** `done`: one instruction, then the world's verdict on this robot. */
    method Done() returns (r: Result<bool>)
      requires world.model.Valid()
      modifies world.model`instructionCount
      ensures world.model.instructionCount == old(world.model.instructionCount) + 1
      ensures r == AllCompleted(world.model.goals, View(), world.model.View())
    {
      world.model.IncrInstruction(1);
      r := world.model.Done(View());
    }

    /** `at_goal`: one instruction, then whether the robot stands where the
        first position goal says; with no position goal, false. */
    method AtGoal() returns (r: bool)
      requires world.model.Valid()
      modifies world.model`instructionCount
      ensures world.model.instructionCount == old(world.model.instructionCount) + 1
      ensures forall i ::
        && 0 <= i < |world.model.goals| && world.model.goals[i].PositionGoal?
        && (forall j :: 0 <= j < i ==> !world.model.goals[j].PositionGoal?)
        ==> (r <==> world.model.goals[i].px == Num(x) && world.model.goals[i].py == Num(y))
      ensures (forall g :: g in world.model.goals ==> !g.PositionGoal?) ==> !r
    {
      world.model.IncrInstruction(1);
      var goals := world.model.PositionGoals();
      if |goals| > 0 {
        assert goals[0] in goals;
        r := IsCompleted(goals[0], View(), world.model.View()).value;
      } else {
        r := false;
      }
      forall i | 0 <= i < |world.model.goals| && world.model.goals[i].PositionGoal? &&
                 (forall j :: 0 <= j < i ==> !world.model.goals[j].PositionGoal?)
        ensures r <==> world.model.goals[i].px == Num(x) && world.model.goals[i].py == Num(y)
      {
        FirstPositionGoal(world.model.goals, i);
      }
    }

    /** `check`: the world's check with its default index, so it is always
        robot 0 that is judged, whichever robot asks; the verdict itself is
        dropped and only an error comes back. */
    method Check() returns (out: Outcome)
      requires world.model.Valid()
      modifies world`currentCall, world.model`isChecked, world.model`jsCallCounter
      ensures world.Bot(0).Failure? ==> out == Fail(IndexError) && world.model.isChecked == old(world.model.isChecked)
      ensures world.Bot(0).Success? && old(world.model.isChecked) ==> out == Fail(AlreadyChecked)
      ensures world.Bot(0).Success? && !old(world.model.isChecked) ==>
        var verdict := EveryGoal(world.model.goals, world.Bot(0).value.View(), world.model.View());
        && (verdict.Failure? ==> out == Fail(verdict.error) && !world.model.isChecked)
        && (verdict.Success? ==> world.model.isChecked && (out.Pass? <==> world.model.HasBalance() && |world.robots| > 0))
    {
      var r := world.Check(0);
      out := if r.Success? then Pass else Fail(r.error);
    }
  }

  /** `carries_flag` as written is false after collecting exactly one
      flag, while the intended test is true. */
  lemma OneFlagIsNotCarried(bot: Robot)
    requires bot.flagCount == 1
    ensures !bot.CarriesFlag() && bot.CarriesFlagIntended()
  {
  }
}
