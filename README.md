# ottopy grid world, modelled in Dafny

ottopy is a teaching tool: a robot moves on a grid of cells, meets walls,
picks up and puts down objects, collects flags and reports messages, and
a set of goals decides whether the learner's program solved the task. A
world is loaded from a JSON world file, and a browser front end draws it.

This project models the core of that engine:

- `Walls` (walls.dfy) covers the wall grid of `WorldModel` and the queries of `Cell`:
  - directions and `Direction.get_dir`;
  - the wall bitmask NORMAL=1, REMOVABLE=2, GOAL=4;
  - the slot a cell's wall lives in, borders and blocks.
- `Keys` (keys.dfy) covers the `"x,y"` dictionary keys: writing them, and reading them back with `split` and `int()`.
- `Goals` (goal.dfy) covers the six goal classes, `Goal.load`, and the two ways the world evaluates goals (`done` and `check`).
- `World` (world.dfy) covers `WorldModel` as a class whose fields the methods update in place:
  - the grid size, the two wall arrays, the tiles and the cells;
  - the object, flag and message tables;
  - the goals, the robot records and the description;
  - the instruction quota and the one-shot check.
- `Ledger` (ledger.dfy) covers the bookkeeping behind `Robot.take` and `Robot.put`: the world's piles, the robot's tallies per origin cell, and its pick ledger.
- `Maze` (maze.dfy) covers the `Maze` widget and the `Robot`:
  - forwarding calls to the front end under the instruction quota;
  - moving, turning and the sensors;
  - building and removing walls;
  - taking and putting objects, collecting flags, and the check.
- `Parser` (parser.dfy) covers `WorldParser`, section by section, into a `WorldModel`.
- `View` (view.dfy) covers the pure helpers of the front end's world model:
  - the grid-size clamp;
  - how a wall value chooses a wall style;
  - which walls `draw_walls` draws, and canvas coordinates and wall shape names;
  - `parse_value`, compared with the engine's `parse_val`.

Each mutating method states what it makes of the grid, the world's
tables and the robot's own fields, in terms of specification functions
(`SetSlot`, `PlaceAll`, `LayTiles`, `PostMessages`, `PlantFlags`,
`Ledger.Take`, `Ledger.Put`, `EveryGoal`). The front-end call record and
call counter are stated by `Maze.Maze.JsCall` and `Maze.Robot.TurnLeft`;
the other robot actions leave them out, as "## Left out" says.
Lemmas prove what those functions mean:

- the walls a world file lists stand afterwards;
- the last entry for a key wins;
- a take followed by a put restores the tables, or does not;
- `done` and `check` agree when no goal raises;
- a robot on the grid stays on it;
- flags collected plus flags left is constant.

Python exceptions are `Failure`/`Fail` values of `Common.Error`, and so
are Python's list indexing rules. `cells[x - 1][y - 1]` with `x = 0`
reaches the last column: `PyIndex` and `Walls.CellAt` model that, so
every lookup that can raise returns a `Result`. Calls to the front end
become `Maze.Maze.JsCall`, which records the call it would send.
`random.choice` and `random.randint` are a choice of any value they may
return, so contracts hold for every draw.

## Model

| member | source | states |
|---|---|---|
| Common.PyIndex | ottopy/models/world_model.py:352 | Python's `xs[i]` reaches a slot exactly when `-len <= i < len`, namely `i` or `i + len`; otherwise IndexError |
| Keys.DigitsRoundTrip | ottopy/models/world_parser.py:45 | reading back the decimal digits written for `n` gives `n` |
| Keys.IntToString | ottopy/models/world_model.py:260 | `str(n)` is non-empty, has no comma, is all digits exactly when `n >= 0`, and starts with '-' exactly when `n < 0` |
| Keys.ParseInt | ottopy/models/world_parser.py:45 | `int(s)` succeeds only on non-empty text, and a run of digits denotes its decimal value |
| Keys.IntRoundTrip | ottopy/models/world_parser.py:45 | `int(str(n)) == n` for every integer, negative ones included |
| Keys.Split | ottopy/models/world_parser.py:45 | `s.split(sep)` has at least one piece, and is `[s]` when `sep` does not occur |
| Keys.SplitAtFirst | ottopy/models/world_parser.py:45 | splitting `a + sep + b` with `sep` not in `a` gives `a`, then the pieces of `b` |
| Keys.ParseKey | ottopy/models/world_parser.py:54 | `map(int, key.split(","))` unpacked into `[x, y]` succeeds exactly when the key has two comma-separated pieces that `int()` accepts, and then gives their values; otherwise a ValueError |
| Keys.KeyRoundTrip | ottopy/models/world_parser.py:124 | the key `"{},{}".format(x, y)` reads back as `(x, y)` |
| Keys.KeyInjective | ottopy/robot.py:437 | two positions share a dictionary key exactly when they are equal |
| Walls.WithFlagBits | ottopy/models/world_model.py:136-144 | `WallType(v) \| flag` keeps a value in 0..7, sets that bit and leaves the other bits alone |
| Walls.DirIndex | ottopy/models/world_model.py:41-45 | the directions are numbered 0..3, and `Direction(i)` gives the direction back |
| Walls.FromIndex | ottopy/models/world_model.py:53-55 | `Direction(i)` succeeds exactly for 0 <= i < 4 |
| Walls.Upper | ottopy/models/world_model.py:52 | `upper()` on ASCII letters keeps the length and maps each letter to its capital |
| Walls.GetDir | ottopy/models/world_model.py:47-55 | a number resolves exactly when it is in 0..3, to the direction so numbered; a name resolves to a direction exactly when its capitals are that direction's member name, and otherwise is a KeyError |
| Walls.CaseOfNameIgnored | ottopy/models/world_model.py:52 | any text whose letters, capitalised, spell a member name resolves to that direction |
| Walls.LowerNamesResolve | ottopy/robot.py:4 | the lower-case name of every direction in `dir_names` resolves to that direction |
| Walls.WallCordShared | ottopy/models/world_model.py:74-83 | the wall between a cell and its neighbour has the same slot, in the same array, seen from either side |
| Walls.SlotOf | ottopy/models/world_model.py:108-111 | every side of every cell of the grid addresses a slot inside both wall arrays |
| Walls.Slot | ottopy/models/world_model.py:108-111 | a wall slot holds a bitmask below 8 |
| Walls.SetSlot | ottopy/models/world_model.py:93-106 | `set_wall` changes the one slot that the side addresses, seen from both neighbours, and no other |
| Walls.BorderIsEdge | ottopy/models/world_model.py:168-179 | a cell has a border on a side exactly when its neighbour there is off the grid |
| Walls.ClearRunStartsClear | ottopy/robot.py:81-91 | a run of steps that were all clear began on the grid with its first side not blocked |
| Walls.UnblockedStepStaysInGrid | ottopy/models/world_model.py:181-182 | a step through a side that is not blocked stays on the grid |
| Walls.BlockSymmetric | ottopy/models/world_model.py:181-182 | a block between two cells of the grid is seen from both of them |
| Walls.OnlyNormalBlocks | ottopy/models/world_model.py:156-160 | a removable-only or goal-only slot does not block |
| Walls.KindValue | ottopy/models/world_model.py:117-125 | `add_wall` writes 1, 3 or 4: NORMAL is set except for a goal wall, REMOVABLE only for a removable one, and GOAL only for a goal wall |
| Walls.ZeroArray | ottopy/models/world_model.py:239-240 | `set_dimensions` makes `cols + 1` columns of `rows + 1` empty slots |
| Walls.CellAt | ottopy/models/world_model.py:352 | `cells[x - 1][y - 1]` reaches a cell of the grid, namely (x, y) itself on the grid, and raises past either end |
| Walls.CellAtSize | ottopy/models/world_model.py:352 | which cell a position reaches depends only on the grid's size |
| Goals.AllBlockedMeaning | ottopy/models/goal.py:35-38 | the `all(...)` of a wall goal is true exactly when every listed side is blocked |
| Goals.AllBlockedErrors | ottopy/models/goal.py:38 | the `all(...)` over a wall goal's directions fails only as `get_dir` does: a KeyError or a ValueError |
| Goals.OnlyWallGoalsRaise | ottopy/models/goal.py:1-90 | every goal other than a wall goal gives a verdict; a wall goal raises only IndexError, KeyError or ValueError |
| Goals.PositionGoalMeaning | ottopy/models/goal.py:6-7 | a position goal holds exactly when its coordinates are numbers equal to the robot's position |
| Goals.ReporterGoalStaysMet | ottopy/models/goal.py:20-21 | a reporter goal that holds keeps holding whatever is reported later |
| Goals.WallGoalMeaning | ottopy/models/goal.py:35-38 | a wall goal holds exactly when each listed side is a border or has a NORMAL wall |
| Goals.Load | ottopy/models/goal.py:100-113 | `Goal.load` builds a goal of the class registered under the kind, and an unregistered kind is a TypeError |
| Goals.DoneAgreesWithCheck | ottopy/models/world_model.py:355-369 | when no goal raises, `done` and `check` both answer whether every goal holds |
| Goals.DoneSkipsLaterFaults | ottopy/models/world_model.py:355-356 | `done` stops at a failing goal and so hides a later goal that raises, which `check` meets |
| World.JoinSplitRoundTrip | ottopy/models/world_model.py:276 | joining lines that hold no newline and splitting the result at newlines gives the lines back |
| World.EmptyTiles | ottopy/models/world_model.py:241 | the tile array of a new grid has the grid's shape and no tile |
| World.BuildCells | ottopy/models/world_model.py:242-246 | the nested loop makes `cols` columns of `rows` fresh cells, the one at `[i][j]` being at (i + 1, j + 1) |
| World.WorldModel.constructor | ottopy/models/world_model.py:186-203 | a new world is 10 by 10 with zeroed wall arrays, no tiles and fresh cells, empty tables, the default quota of 1000 unless overridden, and not yet checked |
| World.WorldModel.SetDimensions | ottopy/models/world_model.py:236-246 | sizes are capped at 20, and walls, tiles and cells are made afresh |
| World.WorldModel.AddTile | ottopy/models/world_model.py:254-257 | the cell reached and its tile entry take the background; out of range is an IndexError with nothing changed |
| World.WorldModel.AddMsg | ottopy/models/world_model.py:259-263 | the message table is written before the cell lookup, so a bad position still files the message and then raises |
| World.WorldModel.AddFlag | ottopy/models/world_model.py:265-267 | `flags["x,y"] = 1` |
| World.WorldModel.RemoveFlag | ottopy/models/world_model.py:269-272 | the key is deleted when present; otherwise KeyError and nothing changes |
| World.WorldModel.AddDescription | ottopy/models/world_model.py:274-278 | a list of lines is joined with newlines, and anything else is stored as given |
| World.WorldModel.SetWall | ottopy/models/world_model.py:93-106 | `set_wall` is `SetSlot` on the world's wall grid |
| World.WorldModel.CellAddWall | ottopy/models/world_model.py:117-125 | `Cell.add_wall` writes its kind's value into the slot |
| World.WorldModel.CellRemoveWall | ottopy/models/world_model.py:146-147 | `Cell.remove_wall` clears the slot |
| World.WorldModel.SetAsGoal | ottopy/models/world_model.py:136-139 | the GOAL bit is added to the slot |
| World.WorldModel.SetAsRemovable | ottopy/models/world_model.py:141-144 | the REMOVABLE bit is added to the slot |
| World.WorldModel.AddWall | ottopy/models/world_model.py:280-284 | the cell lookup can raise IndexError, then the direction lookup; only when both succeed is the slot written |
| World.WorldModel.RemoveWall | ottopy/models/world_model.py:290-292 | the slot is cleared when the cell and the direction resolve; otherwise nothing changes |
| World.WorldModel.AddObject | ottopy/models/world_model.py:294-298 | the key is made to hold the single mapping `{name: val}`, replacing what was there |
| World.WorldModel.AddRobot | ottopy/models/world_model.py:303-304 | a robot record is appended |
| World.WorldModel.AddGoal | ottopy/models/world_model.py:306-310 | a goal is appended |
| World.WorldModel.AddGoalOfKind | ottopy/models/world_model.py:330-332 | `_add_goal` appends `Goal.load(kind, config)`, or raises its error and appends nothing |
| World.WorldModel.AddReporterGoal | ottopy/models/world_model.py:312-313 | a reporter goal is appended |
| World.WorldModel.AddFlagCountGoal | ottopy/models/world_model.py:315-316 | a flag-count goal is appended |
| World.WorldModel.AddDropObjGoal | ottopy/models/world_model.py:318-320 | a drop goal is appended |
| World.WorldModel.AddPickObjGoal | ottopy/models/world_model.py:322-324 | an object goal is appended |
| World.WorldModel.AddHomeGoal | ottopy/models/world_model.py:326-328 | a position goal is appended and the "house" background is laid on its cell and tile; a position that `cells[x - 1][y - 1]` cannot reach is an IndexError after the goal is appended, with tiles and cells unchanged |
| World.WorldModel.PositionGoals | ottopy/models/world_model.py:334-335 | exactly the position goals |
| World.WorldModel.DropGoals | ottopy/models/world_model.py:337-338 | exactly the drop goals |
| World.WorldModel.SetEditable | ottopy/models/world_model.py:340-346 | `drop_allowed`/`pick_allowed` set one flag of the cell reached; out of range is an IndexError |
| World.WorldModel.IsClear | ottopy/models/world_model.py:351-353 | a side is clear exactly when it has neither a border nor a NORMAL wall; a bad position or direction raises |
| World.WorldModel.IncrInstruction | ottopy/models/world_model.py:226-227 | the instruction count grows by `n` |
| World.WorldModel.SetQuota | ottopy/models/world_model.py:223-224 | the quota becomes `val` |
| World.WorldModel.Check | ottopy/models/world_model.py:358-369 | a second check raises; otherwise every goal is evaluated in order, the verdict is their conjunction, and the world is marked checked unless a goal raised |
| World.FilterPosition | ottopy/models/world_model.py:334-335 | the filter keeps exactly the position goals |
| World.FilterDrop | ottopy/models/world_model.py:337-338 | the filter keeps exactly the drop goals |
| World.FilterPositionAppend | ottopy/models/world_model.py:334-335 | filtering a concatenation is concatenating the filtered parts, so the filter keeps the goals' order |
| World.FirstPositionGoal | ottopy/models/world_model.py:334-335 | the first goal of `position_goals` is the position goal that comes first in the goal list |
| World.FilterDropAppend | ottopy/models/world_model.py:337-338 | the drop filter keeps the goals' order in the same way |
| World.FirstDropGoal | ottopy/models/world_model.py:337-338 | the first goal of `drop_goals` is the drop goal that comes first in the goal list |
| World.EveryGoalFirstFault | ottopy/models/world_model.py:361-363 | the first goal that raises decides `check`'s error |
| Ledger.NameHere | ottopy/robot.py:311-338 | `object_here` names only the pile lying on the cell |
| Ledger.NameHereAgreesWithPickable | ottopy/robot.py:435-444 | while only the pile's own name was taken from a cell, `object_here` and `on_object` agree |
| Ledger.NameHereDisagreesWithPickable | ottopy/robot.py:435-444 | when another name was taken there too, `object_here` says nothing is left while `on_object` still allows a take |
| Ledger.Take | ottopy/robot.py:465-482 | a take logs one pick, raises the tally for that name and cell by one, leaves every other tally alone, and deletes the pile when the tally reaches its count |
| Ledger.Put | ottopy/robot.py:416-418 | a put pops the last ledger entry |
| Ledger.ObjectGoalAfterTake | ottopy/models/goal.py:53-56 | after a take of the goal's object on its cell, an object goal holds exactly when its value is one more than the earlier tally |
| Ledger.DropGoalAfterPut | ottopy/models/goal.py:86-90 | after a put of an object of the goal's name on its cell, a drop goal holds exactly when its value is one more than lay there before |
| Ledger.TakeConsistent | ottopy/robot.py:465-476 | a take keeps every tally equal to the number of its ledger entries |
| Ledger.PutConsistent | ottopy/robot.py:416-431 | with consistent tables a put always returns an object, lowers exactly that tally, and keeps the tables consistent |
| Ledger.TakeThenPutRestores | ottopy/robot.py:411-485 | taking the single object of a cell and putting it back restores the objects, the tallies and the ledger |
| Ledger.TakeThenPutOnLargerPile | ottopy/robot.py:411-485 | on a larger pile the same round trip grows the pile by one, so one more object is left to take |
| Ledger.OverdrawnPileNeverDrains | ottopy/robot.py:477-479 | a cell whose tally exceeds its pile allows any number of takes and never loses its pile |
| Ledger.OverdrawnIsReachable | ottopy/robot.py:411-485 | two takes, a third on another cell and a put reach such a cell |
| Ledger.IntendedTakesAreBounded | ottopy/robot.py:435-444 | under the intended test, takes on a cell stop after what was left there |
| Maze.Names | ottopy/robot.py:371-374 | the basket lists the name of each ledger entry, in order |
| Maze.Maze.constructor | ottopy/maze.py:62-67 | one robot per robot record, in order, each with its index and placed as its record says |
| Maze.Maze.JsCall | ottopy/maze.py:43-60 | the call counter always advances; within the quota the call is published with robot 0's stats (none is an IndexError); past it "halt" is published and the quota error raised |
| Maze.Maze.Bot | ottopy/maze.py:75-76 | Python indexing of the robot list: index `i` for `0 <= i < len`, `i + len` for a negative index down to `-len`, and IndexError otherwise |
| Maze.Maze.Check | ottopy/maze.py:84-90 | the chosen robot is looked up, then the world's check runs, then the success or error call is sent; a verdict comes back exactly when that call goes through |
| Maze.Robot.constructor | ottopy/robot.py:21-34 | a robot starts where its record says, carrying nothing |
| Maze.Robot.Basket | ottopy/robot.py:357-374 | the names of the objects carried, oldest first |
| Maze.Robot.CarriesObject | ottopy/robot.py:340-355 | true exactly when the ledger is not empty |
| Maze.Robot.CellHere | ottopy/robot.py:206-207 | the cell `cells[x - 1][y - 1]` reaches |
| Maze.Robot.FrontIsClear | ottopy/robot.py:97-111 | from a cell of the grid: the cell ahead is on the grid and no NORMAL wall stands between |
| Maze.Robot.RightIsClear | ottopy/robot.py:141-156 | the side a quarter turn clockwise is not blocked |
| Maze.Robot.WallInFront | ottopy/robot.py:174-188 | the front is blocked |
| Maze.Robot.WallOnRight | ottopy/robot.py:158-172 | the right side is blocked |
| Maze.Robot.MessageHere | ottopy/robot.py:301-309 | the cell reached carries a message |
| Maze.Robot.Report | ottopy/robot.py:190-204 | the message is appended to the reports |
| Maze.Robot.PickFlag | ottopy/robot.py:406-409 | on a flag: count it and delete it from the world, after which the intended `carries_flag` holds; off a flag nothing changes; flags collected plus flags left stay the same |
| Maze.Robot.Advance | ottopy/robot.py:86-91 | one cell ahead, staying on the grid; the flag on the new cell, and only that one, is removed; the move is counted when the flag pickup went through |
| Maze.Robot.Collide | ottopy/robot.py:92-95 | a blocked step reports the position and fails with a collision |
| Maze.Robot.StepOnce | ottopy/robot.py:85-95 | `_move`: a clear front advances one cell, a blocked one leaves the robot in place and fails (a collision when the call goes through), and a bad position raises; the move is counted exactly when the step passes |
| Maze.Robot.Move | ottopy/robot.py:62-83 | all `step` instructions are charged first; from a cell of the grid the robot ends where `Walked` says, so a move into a wall fails where it stands with nothing counted; a move that succeeds has gone `step` cells ahead and counted them |
| Maze.Robot.Walk | ottopy/robot.py:81-82 | the loop of `move` keeps the flag total and the heading; it passes exactly when all steps are counted; from a cell of the grid it stops, when a step fails, in front of the first blocked side, and every side crossed before was clear |
| Maze.WalkStops | ottopy/robot.py:81-95 | a step that fails after a clear run ends the walk where `Walked` says |
| Maze.WalkGoesOn | ottopy/robot.py:81-95 | a step that passes extends the clear run by one cell |
| Maze.WalkEnds | ottopy/robot.py:81-82 | a clear run of all the steps ends the walk where `Walked` says |
| Maze.WallAheadStops | ottopy/robot.py:62-95 | a walk that starts in front of a blocked side has made no step and stands where it started |
| Maze.Robot.TurnLeft | ottopy/robot.py:130-139 | one instruction, then a quarter turn anticlockwise, then one front-end call: "turn_left" published within the quota, "halt" and the quota error past it |
| Maze.Robot.BuildWall | ottopy/robot.py:209-225 | a wall goes up only where a goal wall is marked and the front is clear, and then blocks the front; a blocked front is an error |
| Maze.Robot.BuildAhead | ottopy/robot.py:219-221 | where a goal wall is marked, the slot becomes a NORMAL wall, which blocks the front |
| Maze.Robot.RemoveWall | ottopy/robot.py:227-241 | a blocked front has its slot cleared, which opens it unless it is the border; a clear front is an error |
| Maze.Robot.ClearAhead | ottopy/robot.py:237 | the slot ahead is cleared |
| Maze.Robot.WallAt | ottopy/models/world_model.py:117-149 | the slot is written and the front end told which wall changed |
| Maze.Robot.OnObject | ottopy/robot.py:435-444 | one instruction, then the test for whether a take is allowed |
| Maze.Robot.ObjectHere | ottopy/robot.py:311-338 | one instruction, then the pile's name unless the robot took all of it |
| Maze.Robot.Take | ottopy/robot.py:446-485 | a take is refused at capacity, on a cell that forbids picking, or with nothing to pick, each with its charge; otherwise the tables change as `Ledger.Take` says and stay consistent |
| Maze.Robot.TakeHere | ottopy/robot.py:463-482 | the tables change as `Ledger.Take` says |
| Maze.Robot.Put | ottopy/robot.py:411-431 | a put is refused on a cell that forbids dropping; otherwise one instruction, and with a non-empty ledger the tables change as `Ledger.Put` says and stay consistent |
| Maze.Robot.PutHere | ottopy/robot.py:416-431 | the tables change as `Ledger.Put` says |
| Maze.Robot.DropHere | ottopy/robot.py:427-431 | the pile here becomes the name with one more than there was of it |
| Maze.Robot.Unpick | ottopy/robot.py:416-425 | the last entry is popped, and its tally drops by one when it is there |
| Maze.Robot.Done | ottopy/robot.py:113-128 | one instruction, then `done` of the world on this robot |
| Maze.Robot.AtGoal | ottopy/robot.py:376-397 | one instruction, then whether the robot stands on the position goal that comes first in the goal list; false with none |
| Maze.Robot.Check | ottopy/robot.py:59-60 | the world's check of robot 0, whichever robot asks, with the verdict dropped: no robot is an IndexError, a second check raises, a raising goal leaves the world unchecked, and otherwise the world is checked |
| Maze.OneFlagIsNotCarried | ottopy/robot.py:403-404 | after one flag `carries_flag` is false, while the intended test is true |
| Parser.Draws | ottopy/models/world_parser.py:78-87 | `parse_val` draws from a non-empty pool: a number gives itself, a list one of its items (an empty one raises) |
| Parser.ParseVal | ottopy/models/world_parser.py:78-87 | the value drawn is in the pool, or the error is `Draws`' error |
| Parser.DashSplit | ottopy/models/world_parser.py:84 | "a-b" splits into the digits of a and of b |
| Parser.PlainTextDraws | ottopy/models/world_parser.py:87 | a number written as text gives itself |
| Parser.RangeDraws | ottopy/models/world_parser.py:84-85 | "lo-hi" draws any number from lo to hi when lo <= hi, and is a ValueError otherwise |
| Parser.NegativeTextRefused | ottopy/models/world_parser.py:82-84 | "-3" is split at its dash and refused |
| Parser.PyInt | ottopy/models/world_parser.py:69 | `int()` of a number is that number, and of a list a TypeError |
| Parser.UnpackPair | ottopy/models/world_parser.py:69 | `[x, y] = map(int, pos)` needs exactly two convertible items |
| Parser.PairRoundTrip | ottopy/models/world_parser.py:69 | a flag written as numbers or as their texts reads back as the pair |
| Parser.PlaceWall | ottopy/models/world_parser.py:56 | placing a wall keeps the grid's size and shape |
| Parser.PlaceDirs | ottopy/models/world_parser.py:55-56 | placing a cell's walls keeps the grid's size and shape |
| Parser.PlaceAll | ottopy/models/world_parser.py:51-56 | placing every wall keeps the grid's size and shape |
| Parser.PlaceWallKeeps | ottopy/models/world_parser.py:56 | placing a wall takes none away and puts up the one named |
| Parser.PlaceDirsKeeps | ottopy/models/world_parser.py:55-56 | placing a cell's walls takes none away and puts up every one listed |
| Parser.PlacedWallsStand | ottopy/models/world_parser.py:51-56 | every wall a world file lists stands after `parse_walls` |
| Parser.PlaceAllKeeps | ottopy/models/world_parser.py:51-56 | `parse_walls` takes no wall away |
| Parser.WallsOfCell | ottopy/models/world_parser.py:55-56 | the inner loop leaves the walls `PlaceDirs` describes, or its first error |
| Parser.ParseWalls | ottopy/models/world_parser.py:51-56 | the walls become what `PlaceAll` describes, or its first error |
| Parser.TileOf | ottopy/models/world_parser.py:46-49 | a text or a list is laid, and anything else is skipped |
| Parser.LayOne | ottopy/models/world_parser.py:45-49 | laying one tile keeps the tile array's shape |
| Parser.LayTiles | ottopy/models/world_parser.py:42-49 | laying all tiles keeps the tile array's shape |
| Parser.LastTileWins | ottopy/models/world_parser.py:42-49 | the tile listed last is the one left on its cell |
| Parser.TileOfCell | ottopy/models/world_parser.py:45-49 | one entry leaves the tiles `LayOne` describes, or its error |
| Parser.ParseTiles | ottopy/models/world_parser.py:42-49 | the tiles become what `LayTiles` describes, or its first error |
| Parser.LastIndex | ottopy/models/world_parser.py:74-76 | the position of the last pair filed under a key |
| Parser.LastIndexFound | ottopy/models/world_parser.py:74-76 | every pair filed under a key comes at or before the last |
| Parser.FileAllMeaning | ottopy/models/world_parser.py:74-76 | a key is in the table exactly when it was before or was filed, and then it holds the last value filed |
| Parser.Filed | ottopy/models/world_parser.py:74-76 | each message is filed under its position's canonical key |
| Parser.MessagesParse | ottopy/models/world_parser.py:72-76 | `parse_messages` succeeds exactly when every key names a cell of the grid |
| Parser.MessagesFiled | ottopy/models/world_parser.py:72-76 | then it files every text under its key, in order |
| Parser.ParseMessages | ottopy/models/world_parser.py:72-76 | the message table becomes what `PostMessages` describes, or its first error |
| Parser.Planted | ottopy/models/world_parser.py:68-70 | each flag puts a count of one under its key |
| Parser.FlagsParse | ottopy/models/world_parser.py:66-70 | `parse_flags` succeeds exactly when every entry is a pair of integers |
| Parser.FlagsPlanted | ottopy/models/world_parser.py:66-70 | then it puts a count of one under every listed position, in order |
| Parser.ParseFlags | ottopy/models/world_parser.py:66-70 | the flag table becomes what `PlantFlags` describes, or its first error |
| Parser.ParseDimensions | ottopy/models/world_parser.py:37-40 | a missing `rows` or `cols` is a KeyError; otherwise each is drawn with `parse_val`, capped at 20, and the grid is made afresh |
| Parser.ParseSceneConfig | ottopy/models/world_parser.py:31 | the grid line colour, "gray" by default |
| Parser.ParseRobots | ottopy/models/world_parser.py:89-99 | one robot per record, appended in order, at one of its possible positions when it lists any, with orientation 0 and trace "red" by default |
| Parser.ParseDescription | ottopy/models/world_parser.py:134-135 | the description is stored as `add_description` stores it |
| Parser.Expand | ottopy/models/world_parser.py:61 | one item per name listed at a key, in order |
| Parser.StocksFailOnlyAtBadItem | ottopy/models/world_parser.py:58-64 | `parse_objects` fails only at an item whose value or key is malformed |
| Parser.StockedItemsGood | ottopy/models/world_parser.py:58-64 | when it succeeds, every item was accepted and no key was lost |
| Parser.LastNameWins | ottopy/models/world_parser.py:58-64 | for every position: it is stocked exactly when it was before or an item names it; the last item naming it decides the name, with a count that item's text may draw; a position no item names keeps its pile |
| Parser.ObjectsOfCell | ottopy/models/world_parser.py:61-64 | the inner loop's outcome is one `Stocks` allows |
| Parser.ParseObjects | ottopy/models/world_parser.py:58-64 | every outcome of `parse_objects` is one `Stocks` allows |
| Parser.WallGoalsMeaning | ottopy/models/world_parser.py:122-125 | `add_wall_goals` succeeds exactly when every key is a position, and adds one wall goal per key, in order |
| Parser.AddGoalAt | ottopy/models/world_parser.py:125 | a wall or object goal at the position is appended |
| Parser.AddWallGoals | ottopy/models/world_parser.py:122-125 | the goals become the old ones plus `WallGoalsOf`, or its first error |
| Parser.NamedGoals | ottopy/models/world_parser.py:130-132 | one object goal per name listed at a key |
| Parser.ObjectGoalsMeaning | ottopy/models/world_parser.py:127-132 | `add_object_goals` succeeds exactly when every key is a position, and adds one object goal per name |
| Parser.ObjectGoalsOfCell | ottopy/models/world_parser.py:130-132 | the inner loop appends those goals |
| Parser.AddObjectGoals | ottopy/models/world_parser.py:127-132 | the goals become the old ones plus `ObjectGoalsOf`, or its first error |
| Parser.GoalImage | ottopy/models/world_parser.py:116-120 | the tile array becomes the old one with the image on the cell of a drawn position, or the draw or the lookup raises |
| Parser.AddPositionGoal | ottopy/models/world_parser.py:108-120 | one position goal, at one of the possible final positions or at the given position; the tiles change only by the goal's image, laid on a drawn position |
| Parser.AddGoalOfKindPosition | ottopy/models/world_parser.py:115 | a position goal with the given coordinates is appended |
| Parser.ParseGoals | ottopy/models/world_parser.py:101-106 | the position goal, then the wall goals, then the object goals; the tiles change only by the position goal's image |
| Parser.ParseLayout | ottopy/models/world_parser.py:17-22 | the drawn dimensions, the scene colour, the listed walls on an empty grid, the listed tiles on an empty tile array, and the messages, as their sections describe |
| Parser.ParseStock | ottopy/models/world_parser.py:23-25 | the robots, objects and flags, as their sections describe |
| Parser.ParseClosing | ottopy/models/world_parser.py:26-27 | the goals, then the description |
| Parser.ParseRest | ottopy/models/world_parser.py:23-27 | the stock sections, then the closing sections |
| Parser.ParseWorld | ottopy/models/world_parser.py:16-27 | a world that parses has the drawn size, the listed walls and messages, the listed tiles with the position goal's image on top, one robot per record, the objects and flags listed, the goals in order and the description |
| View.ClampDims | src/models/world_model.ts:112-113 | the front end caps each size at 15 and never raises it |
| View.Binary | src/models/world_model.ts:693 | `toString(2)` is non-empty, one digit exactly below 2 |
| View.PadStart3 | src/models/world_model.ts:692-696 | `_padStart(s, 3, '0')` has length max(\|s\|, 3) |
| View.TypedWallDecodesBits | src/models/world_model.ts:691-707 | for a value below 8, the padded binary digits select the style by bits: NORMAL with REMOVABLE is removable, NORMAL alone normal, GOAL alone goal |
| View.PaddedBits | src/models/world_model.ts:692-696 | the padded binary digits of a value below 8 are its bits 2, 1 and 0 |
| View.KindIsDrawnInItsStyle | src/models/world_model.ts:691-707 | each wall kind the engine writes is drawn in its own style |
| View.RowDraws | src/models/world_model.ts:711-717 | one draw per slot of a column, in order |
| View.ArrayDrawsSound | src/models/world_model.ts:709-728 | every draw comes from a slot of the array with that slot's value |
| View.ArrayDrawsComplete | src/models/world_model.ts:709-728 | every slot of the array is drawn |
| View.DrawWallsShowsSlots | src/models/world_model.ts:709-728 | the north and east slots of every cell are drawn |
| View.DrawWallsOnlySlots | src/models/world_model.ts:709-728 | every draw is a north slot of `hwalls` or an east slot of `vwalls` |
| View.BlockingWallIsDrawnAsWall | src/models/world_model.ts:691-728 | a slot drawn on the north or east side shows as a normal or removable wall exactly when the engine's NORMAL bit is set |
| View.Point2CxyInjective | src/models/world_model.ts:649-651 | distinct cells have distinct canvas corners |
| View.RemoveFindsDrawn | src/models/world_model.ts:677-686 | `remove_wall` looks for a wall exactly when `draw_wall` draws one, and by the name it was drawn under |
| View.WallOnSharedEdge | src/models/world_model.ts:653-671 | an east wall is drawn on the left edge of the next column, and a north wall on the bottom edge of the next row |
| View.CoordsInjective | src/models/world_model.ts:658 | the coordinate part "x-y" of a shape name determines x and y |
| View.ShapeNamesDistinct | src/models/world_model.ts:677-686 | two walls share a shape name exactly when they are the same wall |
| View.DigitPrefix | src/models/world_model.ts:541 | `parseInt` reads the longest run of leading digits |
| View.JsParseIntPrefix | src/models/world_model.ts:541 | `parseInt` of digits followed by anything else is their value |
| View.ValueDraws | src/models/world_model.ts:537-544 | `parse_value` draws from a non-empty pool: a falsy value gives 0, a number itself |
| View.RangeTextDraws | src/models/world_model.ts:541-542 | "a-b" draws any number between a and b, in either order |
| View.RangeAgreesWithParser | src/models/world_model.ts:537-544 | for "lo-hi" with lo <= hi the front end and the engine draw from the same range; reversed, the engine raises while the front end swaps |
| View.PlainTextDrawsFromZero | src/models/world_model.ts:541-542 | a plain number "n" draws anything from 0 to n in the front end, while the engine gives n |
| View.LeadingDashDrawsFromZero | src/models/world_model.ts:541-542 | "-n" draws from 0 to n in the front end, while the engine raises |

Specification functions without a row of their own are stated through
the lemmas and methods above:

- `Walls.WallCord`, `Walls.HasBorder`, `Walls.HasWall`, `Walls.HasGoalWall`
  and `Walls.HasBlock` are `_wall_cord`, `has_border`, `has_wall`,
  `has_goal_wall` and `has_block` of `Cell` (ottopy/models/world_model.py:74-182);
- `Walls.UiDirection` is `Cell.ui_direction` (ottopy/models/world_model.py:85-91);
- `Walls.WithFlag` is the `WallType(val) | flag` of `set_as_goal` and
  `set_as_removable` (ottopy/models/world_model.py:136-144);
- `Walls.Step` is `_directions` (ottopy/robot.py:2) and `Walls.ClearRun`
  says that a run of steps saw no block;
- `Goals.IsCompleted`, `Goals.AllBlocked`, `Goals.AllCompleted` and
  `Goals.EveryGoal` are the goals' `is_completed` (ottopy/models/goal.py:1-90)
  and the loops of `done` and `check` (ottopy/models/world_model.py:355-369);
- `World.WorldModel.Done` and `World.WorldModel.HasBalance` are `done` and
  `has_balance` (ottopy/models/world_model.py:229-230, 355-356);
  `World.WorldModel.CellPos` is the cell lookup `cells[x - 1][y - 1]`;
- `World.FreshCell` is `Cell.__init__` with its defaults
  (ottopy/models/world_model.py:58-64), and `World.JoinLines` is the
  `'\n'.join` of `add_description` (ottopy/models/world_model.py:276);
- `Ledger.Pickable` is `on_object`'s test (ottopy/robot.py:436-444);
- `Maze.FlagAt` is `on_flag`'s `flags.get(k, 0) == 1` (ottopy/robot.py:399-401);
- `Keys.PosKey` is `"{},{}".format(x, y)`;
- `Maze.Robot.CarriesFlag`, `Maze.Robot.OnFlag`, `Maze.Robot.StatsReport` and
  `Maze.Robot.AtCapacity` are `carries_flag` and the flag test of
  `_pick_flag` (ottopy/robot.py:403-409), `Stats.report`, sent with every
  call (ottopy/robot.py:7-17), and the capacity test of `take`
  (ottopy/robot.py:456);
- `Maze.Walked` and `Maze.SteppedFrom` say where a walk of `n` steps and a
  single step end from a cell of the grid;
- `Ledger.Take`, `Ledger.Put` and `Ledger.Tally` are the tables after
  `take` and `put` (ottopy/robot.py:411-485);
- `View.TypedWallStyle`, `View.DrawWalls`, `View.Point2Cxy`, `View.DrawWall`,
  `View.RemoveWall` and `View.JsParseInt` are `_typed_wall`, `draw_walls`,
  `point2cxy`, `draw_wall`, `remove_wall` and `parseInt`
  (src/models/world_model.ts:541-728);
- `Parser.PostMessages`, `Parser.PlantFlags` and `Parser.Stocks` are the
  tables `parse_messages`, `parse_flags` and `parse_objects` leave
  (ottopy/models/world_parser.py:58-76); `Parser.Keyed`, `Parser.LastWins`,
  `Parser.LastWinsStep` and `Parser.StocksLastWins` carry the proof of
  `Parser.LastNameWins`;
- `Parser.LaidOut`, `Parser.TileLaid` and `Parser.ImageLaid` say what the
  layout sections leave and how the position goal's image changes the
  tiles (ottopy/models/world_parser.py:17-22, 116-120).

## Left out

- `parse_tilemaps`, `add_tile_map` and the tile map: these are image lookup data, and nothing the engine decides reads them.
- `border_color`: `parse_scene_config` stores a one-element tuple there, and nothing in the core reads it.
- `Parser.ParseLayout`: the tiles and messages it leaves are stated on the `tiles` and `messages` fields (through `LayTiles` and `PostMessages`). The cells' own background and message copies are not restated there; `ParseTiles` and `ParseMessages` state them only through `AddTile` and `AddMsg`.
- `World.WorldModel.SetDimensions`: follows the code, which only caps rows and columns at 20. No lower bound is applied.
- `Maze.Maze.constructor`: the closing `render_all` call of `Maze.__init__` (ottopy/maze.py:73) is not modelled. In the source it is a front-end call "draw_all" that snapshots the world (ottopy/models/world_model.py:378-379). It adds one to `js_call_counter` and publishes the "draw_all" call. With no quota left it publishes "halt" and raises the quota error; with no robots it raises IndexError. The model's constructor always succeeds, sets an empty call record and leaves the counter as it was.
- `display`, the sleeps (one second in `Maze.__init__`; half a second every tenth front-end call), `print_success` and `print_error`: I/O and timing only.
- `Maze.Robot.Move`, `Maze.Robot.BuildWall`, `Maze.Robot.RemoveWall`, `Maze.Robot.Take` and `Maze.Robot.Put` (with their step methods): how far `js_call_counter` advances and which call `current_call` holds afterwards are not stated. Their contracts state the outcome (including the quota error when a front-end call fails) but not these two fields, because the number of calls depends on the path taken (one per flag collected, one per pile updated). `Maze.Maze.JsCall` states both effects for a single call.
- `Maze.Maze.JsCall`: the callback id (a clock reading) and the JSON encoding are left out; the call is recorded as a value.
- `set_trace`, `set_speed`, `read_message` and `has_object`: front-end effects and input, outside the core.
- `Cell.add_removable_wall` and `WorldModel.add_goal_wall`: neither is reached from the core.
  - `add_removable_wall` passes `self` twice and so would raise a TypeError;
  - `add_goal_wall` is never called.
  - `WorldModel.add_wall` is modelled for every wall kind.
- Goals.Load: a wall, object or drop goal whose coordinates are not numbers is refused with a TypeError when it is built. Python builds it and fails, if at all, only when it is evaluated. The parser only builds such goals from integer coordinates.
- Walls.Upper: `str.upper()` is modelled on ASCII letters only. Python's Unicode mapping also sends 'ſ' to 'S' and 'ß' to "SS", so a name such as "ſouth" resolves to South in Python and is a KeyError here.
- `Robot.x`, `Robot.y` and `Robot.dir` are properties over the robot's record in the world model (ottopy/robot.py:35-57). Here they are fields of `Maze.Robot`, and the records in `world.model.robots` are not updated as the robot moves. Nothing in the core reads those records after the robots are built.
- `Maze.Robot.Check` drops the verdict as `check` does; what the verdict is stays stated on `Maze.Maze.Check`.
- `Maze.Robot.Take` and `Maze.Robot.Put` do not restate the world's `Valid()` afterwards; the fields they change (`objects`, `collections`, `last_picked`) are not part of it.
- Python's `int()` also accepts surrounding whitespace and digit underscores. JavaScript's `parseInt` also accepts leading whitespace and hexadecimal prefixes. Both are left out: `Keys.ParseInt` and `View.JsParseInt` take only an optional sign and decimal digits.
- JavaScript numbers are floating point; `View.ValueDraws` works on integers, and `_random` between two integers is taken to return an integer between them (swapping reversed bounds).
- The box size `bs` and the canvas height of the front end are parameters of `View.Point2Cxy` and `View.DrawWall`; Konva shapes are a name and a point list.
- The front end's `parse_value` reads a plain number text "n" as the range 0..n, and "-n" as 0..n. The engine reads the first as n and refuses the second. Both divergences are stated as lemmas (`View.PlainTextDrawsFromZero`, `View.LeadingDashDrawsFromZero`) rather than corrected.

## Findings

| source | as written | input that shows it | evidently intended | confidence | as-written member | corrected member |
|---|---|---|---|---|---|---|
| ottopy/robot.py:442-444 | `on_object` allows a take whenever the pile dict differs from the robot's tally dict for the cell, and `take` deletes the pile only when the tally equals its count | two apples on cell a and one on cell b: take, take on a, take on b, put on a; cell a now shows one apple against a tally of two, and every further take on a succeeds without ever removing the pile | a take is allowed only while the tally is below the pile's count, so takes on a cell stop | not executed | Ledger.OverdrawnPileNeverDrains | Ledger.IntendedTakesAreBounded |
| ottopy/robot.py:403-404 | `carries_flag` is `flag_count > 1` | a robot that has collected exactly one flag | `flag_count >= 1` | not executed | Maze.OneFlagIsNotCarried | Maze.Robot.PickFlag |

The robot's own operations (`Maze.Robot.OnObject`, `Maze.Robot.Take`)
keep the code's test, so that they describe what the engine does; the
corrected test and its bound stand beside them in `Ledger`.
