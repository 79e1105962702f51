/** The wall model of `ottopy/models/world_model.py`: the four directions,
    the wall bitmask (NORMAL=1, REMOVABLE=2, GOAL=4), the two wall arrays
    and the per-cell queries of `Cell`. A wall between two cells lives in
    one slot, addressed by the coordinate of the cell on its west/south
    side, so the cells on either side of it read and write the same slot. */
module Walls {
  import opened Common

  const NORMAL: int := 1
  const REMOVABLE: int := 2
  const GOAL: int := 4

  /** The attribute bits a wall slot can hold. */
  predicate IsFlag(flag: int) { flag == NORMAL || flag == REMOVABLE || flag == GOAL }

  /** `flag in WallType(v)`: the flag's bit is set in `v`. */
  predicate HasFlag(v: nat, flag: int)
    requires IsFlag(flag)
  {
    (v / flag) % 2 == 1
  }

  /** `WallType(v) | flag`. */
  function WithFlag(v: nat, flag: int): nat
    requires IsFlag(flag)
  {
    if HasFlag(v, flag) then v else v + flag
  }

  /** Setting one bit of a slot value in 0..7 keeps it in 0..7, sets that
      bit and leaves the other two bits as they were. */
  lemma WithFlagBits(v: nat, flag: int, other: int)
    requires v < 8 && IsFlag(flag) && IsFlag(other)
    ensures WithFlag(v, flag) < 8
    ensures HasFlag(WithFlag(v, flag), other) <==> other == flag || HasFlag(v, other)
  {
    if v == 0 {} else if v == 1 {} else if v == 2 {} else if v == 3 {}
    else if v == 4 {} else if v == 5 {} else if v == 6 {} else {}
  }

  datatype Direction = East | North | West | South

  /** The orientation number of a direction (east 0, north 1, west 2, south 3). */
  function DirIndex(d: Direction): (i: nat)
    ensures i < 4 && FromIndex(i) == Success(d)
  {
    match d
    case East => 0
    case North => 1
    case West => 2
    case South => 3
  }

  /** `Direction(i)`: only 0..3 name a direction, anything else is ValueError. */
  function FromIndex(i: int): (r: Result<Direction>)
    ensures r.Success? <==> 0 <= i < 4
  {
    if i == 0 then Success(East) else if i == 1 then Success(North)
    else if i == 2 then Success(West) else if i == 3 then Success(South)
    else Failure(ValueError)
  }

  /** What `Direction.get_dir` accepts: an orientation number or a name. */
  datatype DirSpec = DirNum(n: int) | DirName(name: string)

  function UpperChar(c: char): char
  {
    if 'a' <= c <= 'z' then (c as int - 32) as char else c
  }

  /** `text.upper()` on ASCII letters. */
  function Upper(s: string): (u: string)
    ensures |u| == |s|
    ensures forall i :: 0 <= i < |s| ==> u[i] == UpperChar(s[i])
  {
    if |s| == 0 then "" else [UpperChar(s[0])] + Upper(s[1..])
  }

  /** The member name of a direction in the `Direction` enum. */
  function EnumName(d: Direction): string
  {
    match d
    case East => "EAST"
    case North => "NORTH"
    case West => "WEST"
    case South => "SOUTH"
  }

  /** `Direction.get_dir`: a number is `Direction(n)`; a name is looked up
      by its capitals among the member names, and an unknown one is a
      KeyError. */
  function GetDir(spec: DirSpec): (r: Result<Direction>)
    ensures spec.DirNum? ==> (r.Success? <==> 0 <= spec.n < 4)
    ensures spec.DirNum? && r.Success? ==> DirIndex(r.value) == spec.n
    ensures spec.DirName? ==> forall d :: r == Success(d) <==> Upper(spec.name) == EnumName(d)
    ensures spec.DirName? && r.Failure? ==> r.error == KeyError
  {
    match spec
    case DirNum(n) => FromIndex(n)
    case DirName(name) =>
      var u := Upper(name);
      if u == "EAST" then Success(East) else if u == "NORTH" then Success(North)
      else if u == "WEST" then Success(West) else if u == "SOUTH" then Success(South)
      else Failure(KeyError)
  }

  /** The case of a name does not matter: any text whose letters,
      capitalised, spell a direction's member name resolves to it. */
  lemma CaseOfNameIgnored(name: string, d: Direction)
    requires |name| == |EnumName(d)|
    requires forall i :: 0 <= i < |name| ==> UpperChar(name[i]) == EnumName(d)[i]
    ensures GetDir(DirName(name)) == Success(d)
  {
    assert Upper(name) == EnumName(d);
  }

  function LowerChar(c: char): char
  {
    if 'A' <= c <= 'Z' then (c as int + 32) as char else c
  }

  /** `text.lower()` on ASCII letters. */
  function Lower(s: string): (l: string)
    ensures |l| == |s|
    ensures forall i :: 0 <= i < |s| ==> l[i] == LowerChar(s[i])
  {
    if |s| == 0 then "" else [LowerChar(s[0])] + Lower(s[1..])
  }

  /** The lower-case names (`dir_names` in `ottopy/robot.py`) resolve to
      their directions. */
  lemma LowerNamesResolve(d: Direction)
    ensures GetDir(DirName(Lower(EnumName(d)))) == Success(d)
  {
    CaseOfNameIgnored(Lower(EnumName(d)), d);
  }

  /** The unit step of `_directions` in `ottopy/robot.py`. */
  function Step(d: Direction): (int, int)
  {
    match d
    case East => (1, 0)
    case North => (0, 1)
    case West => (-1, 0)
    case South => (0, -1)
  }

  /** The cell `i` unit steps from (x, y) heading `d`. */
  function Ahead(x: int, y: int, d: Direction, i: int): (int, int)
  {
    match d
    case East => (x + i, y)
    case North => (x, y + i)
    case West => (x - i, y)
    case South => (x, y - i)
  }

  /** `Ahead` is `i` unit steps of `_directions`. */
  lemma AheadIsSteps(x: int, y: int, d: Direction, i: int)
    ensures Ahead(x, y, d, i) == (x + i * Step(d).0, y + i * Step(d).1)
  {
  }

  /** One more unit step goes one cell further ahead. */
  lemma AheadNext(x: int, y: int, d: Direction, i: int)
    ensures Ahead(x, y, d, i + 1) == (Ahead(x, y, d, i).0 + Step(d).0, Ahead(x, y, d, i).1 + Step(d).1)
  {
  }

  /** East and west walls are kept in `vwalls`, north and south in `hwalls`. */
  predicate IsVertical(d: Direction) { d == East || d == West }

  /** `Cell.wall_cord`: the slot of the wall on side `d` of cell (x, y). */
  function WallCord(x: int, y: int, d: Direction): (int, int)
  {
    match d
    case East => (x, y)
    case North => (x, y)
    case West => (x - 1, y)
    case South => (x, y - 1)
  }

  /** `Cell.ui_direction`: walls are drawn on the east or north side of
      their slot. */
  function UiDirection(d: Direction): string
  {
    if IsVertical(d) then "east" else "north"
  }

  /** The wall between (x, y) and its neighbour in direction `d` is the
      wall between that neighbour and (x, y): both cells address the same
      slot of the same array. */
  lemma WallCordShared(x: int, y: int, d: Direction)
    ensures var (dx, dy) := Step(d);
            WallCord(x, y, d) == WallCord(x + dx, y + dy, Opposite(d))
            && IsVertical(d) == IsVertical(Opposite(d))
  {
  }

  function Opposite(d: Direction): (o: Direction)
    ensures DirIndex(o) == (DirIndex(d) + 2) % 4
  {
    match d
    case East => West
    case North => South
    case West => East
    case South => North
  }

  /** The wall arrays together with the grid size they were made for. */
  datatype Grid = Grid(rows: int, cols: int, hwalls: seq<seq<int>>, vwalls: seq<seq<int>>)

  /** An array of `Max(cols + 1, 0)` columns of `Max(rows + 1, 0)` slots
      whose values are wall bitmasks. */
  predicate WallArray(a: seq<seq<int>>, rows: int, cols: int)
  {
    && |a| == Max(cols + 1, 0)
    && forall i :: 0 <= i < |a| ==> |a[i]| == Max(rows + 1, 0) && forall j :: 0 <= j < |a[i]| ==> 0 <= a[i][j] < 8
  }

  predicate WellFormed(g: Grid)
  {
    WallArray(g.hwalls, g.rows, g.cols) && WallArray(g.vwalls, g.rows, g.cols)
  }

  predicate InGrid(g: Grid, x: int, y: int) { 1 <= x <= g.cols && 1 <= y <= g.rows }

  /** The slot coordinates of a cell's wall, inside both arrays for every
      cell of the grid. */
  function SlotOf(g: Grid, x: int, y: int, d: Direction): (s: (nat, nat))
    requires WellFormed(g) && InGrid(g, x, y)
    ensures s == WallCord(x, y, d)
    ensures s.0 <= g.cols && s.1 <= g.rows
    ensures s.0 < |g.hwalls| && s.1 < |g.hwalls[s.0]| && s.0 < |g.vwalls| && s.1 < |g.vwalls[s.0]|
  {
    WallCord(x, y, d)
  }

  /** `Cell.get_wall`. */
  function Slot(g: Grid, x: int, y: int, d: Direction): (v: nat)
    requires WellFormed(g) && InGrid(g, x, y)
    ensures v < 8
  {
    var (i, j) := SlotOf(g, x, y, d);
    if IsVertical(d) then g.vwalls[i][j] else g.hwalls[i][j]
  }

  /** `Cell.set_wall`: only the addressed slot changes. */
  function SetSlot(g: Grid, x: int, y: int, d: Direction, v: int): (g': Grid)
    requires WellFormed(g) && InGrid(g, x, y) && 0 <= v < 8
    ensures WellFormed(g') && g'.rows == g.rows && g'.cols == g.cols
    ensures forall x', y', d' | InGrid(g, x', y') ::
              Slot(g', x', y', d') ==
                if IsVertical(d') == IsVertical(d) && WallCord(x', y', d') == WallCord(x, y, d)
                then v else Slot(g, x', y', d')
  {
    var (i, j) := SlotOf(g, x, y, d);
    if IsVertical(d) then g.(vwalls := g.vwalls[i := g.vwalls[i][j := v]])
    else g.(hwalls := g.hwalls[i := g.hwalls[i][j := v]])
  }

  /** `Cell.has_border`: the side faces the outside of the grid. */
  predicate HasBorder(g: Grid, x: int, y: int, d: Direction)
  {
    match d
    case East => x == g.cols
    case North => y == g.rows
    case West => x - 1 == 0
    case South => y - 1 == 0
  }

  /** A cell of the grid has a border on side `d` exactly when its
      neighbour on that side is outside the grid. */
  lemma BorderIsEdge(g: Grid, x: int, y: int, d: Direction)
    requires InGrid(g, x, y)
    ensures var (dx, dy) := Step(d); HasBorder(g, x, y, d) <==> !InGrid(g, x + dx, y + dy)
  {
  }

  /** `Cell.has_wall`: the NORMAL bit is set in the slot. */
  predicate HasWall(g: Grid, x: int, y: int, d: Direction)
    requires WellFormed(g) && InGrid(g, x, y)
  {
    HasFlag(Slot(g, x, y, d), NORMAL)
  }

  /** `Cell.has_goal_wall`: the GOAL bit is set in the slot. */
  predicate HasGoalWall(g: Grid, x: int, y: int, d: Direction)
    requires WellFormed(g) && InGrid(g, x, y)
  {
    HasFlag(Slot(g, x, y, d), GOAL)
  }

  /** `Cell.has_block`. */
  predicate HasBlock(g: Grid, x: int, y: int, d: Direction)
    requires WellFormed(g) && InGrid(g, x, y)
  {
    HasBorder(g, x, y, d) || HasWall(g, x, y, d)
  }

  /** The first `n` cells of a straight run from (x, y) heading `d` are
      on the grid and none of them is blocked on side `d`. */
  predicate ClearRun(g: Grid, x: int, y: int, d: Direction, n: int)
    requires WellFormed(g)
    decreases n
  {
    n <= 0 ||
      (ClearRun(g, x, y, d, n - 1)
       && InGrid(g, Ahead(x, y, d, n - 1).0, Ahead(x, y, d, n - 1).1)
       && !HasBlock(g, Ahead(x, y, d, n - 1).0, Ahead(x, y, d, n - 1).1, d))
  }

  /** A clear run of at least one cell starts on a cell whose side `d` is
      not blocked. */
  lemma {:induction false} ClearRunStartsClear(g: Grid, x: int, y: int, d: Direction, n: int)
    requires WellFormed(g) && n > 0 && ClearRun(g, x, y, d, n)
    ensures InGrid(g, x, y) && !HasBlock(g, x, y, d)
    decreases n
  {
    if n > 1 {
      ClearRunStartsClear(g, x, y, d, n - 1);
    } else {
      assert Ahead(x, y, d, n - 1) == (x, y);
    }
  }

  /** A step from a cell of the grid through a side that is not blocked
      lands on a cell of the grid. */
  lemma UnblockedStepStaysInGrid(g: Grid, x: int, y: int, d: Direction)
    requires WellFormed(g) && InGrid(g, x, y) && !HasBlock(g, x, y, d)
    ensures var (dx, dy) := Step(d); InGrid(g, x + dx, y + dy)
  {
    BorderIsEdge(g, x, y, d);
  }

  /** Blocking is symmetric: a wall between two cells of the grid blocks
      both of them, and neither sees a border there. */
  lemma BlockSymmetric(g: Grid, x: int, y: int, d: Direction)
    requires WellFormed(g) && InGrid(g, x, y)
    requires var (dx, dy) := Step(d); InGrid(g, x + dx, y + dy)
    ensures var (dx, dy) := Step(d);
            HasBlock(g, x, y, d) == HasBlock(g, x + dx, y + dy, Opposite(d))
  {
    WallCordShared(x, y, d);
  }

  /** Only the NORMAL bit blocks: a slot holding just REMOVABLE, just GOAL
      or both, away from the border, lets the robot through. */
  lemma OnlyNormalBlocks(g: Grid, x: int, y: int, d: Direction)
    requires WellFormed(g) && InGrid(g, x, y) && !HasBorder(g, x, y, d)
    requires Slot(g, x, y, d) in {0, REMOVABLE, GOAL, REMOVABLE + GOAL}
    ensures !HasBlock(g, x, y, d)
  {
  }

  /** The values `Cell.add_wall` writes: normal 1, removable 3 (REMOVABLE |
      NORMAL), goal 4. */
  datatype WallKind = Normal | Removable | GoalWall

  function KindValue(k: WallKind): (v: nat)
    ensures v < 8
    ensures HasFlag(v, NORMAL) <==> k != GoalWall
    ensures HasFlag(v, REMOVABLE) <==> k == Removable
    ensures HasFlag(v, GOAL) <==> k == GoalWall
  {
    match k
    case Normal => NORMAL
    case Removable => REMOVABLE + NORMAL
    case GoalWall => GOAL
  }

  /** An all-zero wall array for a `rows` by `cols` grid. */
  function ZeroArray(rows: int, cols: int): (a: seq<seq<int>>)
    ensures WallArray(a, rows, cols)
    ensures forall i, j :: 0 <= i < |a| && 0 <= j < |a[i]| ==> a[i][j] == 0
  {
    seq(Max(cols + 1, 0), _ => seq(Max(rows + 1, 0), _ => 0))
  }

  /** The wall grid `set_dimensions` leaves: the given size, no walls. */
  function EmptyGrid(rows: int, cols: int): (g: Grid)
  {
    Grid(rows, cols, ZeroArray(rows, cols), ZeroArray(rows, cols))
  }

  /** `world.cells[x - 1][y - 1]`: the grid position of the cell that
      Python's indexing reaches, which for a negative index is a cell
      counted from the far end; IndexError past either end. */
  function CellAt(g: Grid, x: int, y: int): (r: Result<(int, int)>)
    ensures r.Success? ==> InGrid(g, r.value.0, r.value.1)
    ensures InGrid(g, x, y) ==> r == Success((x, y))
    ensures r.Success? <==> -Max(g.cols, 0) <= x - 1 < Max(g.cols, 0) && -Max(g.rows, 0) <= y - 1 < Max(g.rows, 0)
  {
    match (PyIndex(Max(g.cols, 0), x - 1), PyIndex(Max(g.rows, 0), y - 1))
    case (Some(i), Some(j)) => Success((i + 1, j + 1))
    case _ => Failure(IndexError)
  }

  /** Which cell a position reaches depends only on the grid's size. */
  lemma CellAtSize(g: Grid, h: Grid, x: int, y: int)
    requires g.rows == h.rows && g.cols == h.cols
    ensures CellAt(g, x, y) == CellAt(h, x, y)
  {
  }
}
