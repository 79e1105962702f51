/** The world-file parser of `ottopy/models/world_parser.py`. A world file
    is a JSON object; `Config` holds the parts the parser reads, with every
    dictionary kept as its list of items in file order. Parsing fills a
    `WorldModel` section by section, in the order `parse_world` calls the
    sections, and the first exception raised ends it.

    `random.choice` and `random.randint` are modelled by choosing any of
    the values they may return, so each contract holds for every draw. */
module Parser {
  import opened Common
  import opened Keys
  import opened Walls
  import opened Goals
  import opened World

  datatype TileSpec = TileName(name: string) | TileList(names: seq<string>) | TileOther

  datatype RobotSpec = RobotSpec(
    x: int, y: int, initial: seq<(int, int)>, orientation: Option<int>, traceColor: Option<string>)

  /** The `goal.position` record: raw coordinates and an optional image. */
  datatype PositionSpec = PositionSpec(x: Scalar, y: Scalar, image: Option<string>)

  datatype GoalSpec = GoalSpec(
    finals: seq<(int, int)>,
    position: Option<PositionSpec>,
    walls: seq<(string, seq<DirSpec>)>,
    objects: seq<(string, seq<(string, Scalar)>)>)

  /** A world file. A missing optional section is its empty value;
      `rows` and `cols` are read with `config[...]` and may be missing. */
  datatype Config = Config(
    rows: Option<Scalar>,
    cols: Option<Scalar>,
    gridLineColor: Option<string>,
    tiles: seq<(string, TileSpec)>,
    walls: seq<(string, seq<DirSpec>)>,
    messages: seq<(string, string)>,
    robots: seq<RobotSpec>,
    objects: seq<(string, seq<(string, Scalar)>)>,
    flags: seq<seq<Scalar>>,
    goal: GoalSpec,
    description: DescSpec)

  // ---------------------------------------------------------------------
  // parse_val

  /** The values a draw may give: one of a list, or any number of a range. */
  datatype Pool = OneOf(items: seq<int>) | Span(lo: int, hi: int)

  predicate InPool(p: Pool, n: int)
  {
    match p
    case OneOf(items) => n in items
    case Span(lo, hi) => lo <= n <= hi
  }

  predicate NonEmpty(p: Pool)
  {
    match p
    case OneOf(items) => |items| > 0
    case Span(lo, hi) => lo <= hi
  }

  /** The values `parse_val(v)` may return: one of the listed numbers
      (an empty list makes `random.choice` raise IndexError), any number of
      the range "lo-hi" (malformed ranges and lo > hi raise ValueError),
      or `int(v)` of anything else. */
  function Draws(v: Scalar): (r: Result<Pool>)
    ensures r.Success? ==> NonEmpty(r.value)
    ensures v.Num? ==> r == Success(OneOf([v.n]))
    ensures v.Choices? ==> (r.Success? <==> |v.items| > 0)
    ensures v.Choices? && r.Success? ==> r.value == OneOf(v.items)
  {
    match v
    case Num(n) => Success(OneOf([n]))
    case Choices(items) =>
      if |items| == 0 then Failure(IndexError) else Success(OneOf(items))
    case Text(s) =>
      if '-' in s then
        var parts := Split(s, '-');
        if |parts| != 2 then Failure(ValueError)
        else match (ParseInt(parts[0]), ParseInt(parts[1]))
          case (Success(lo), Success(hi)) =>
            if lo <= hi then Success(Span(lo, hi)) else Failure(ValueError)
          case _ => Failure(ValueError)
      else match ParseInt(s)
        case Success(n) => Success(OneOf([n]))
        case Failure(e) => Failure(e)
  }

  /** `parse_val`: one of the values `Draws` allows, or its error. */
  method ParseVal(v: Scalar) returns (r: Result<int>)
    ensures r.Success? <==> Draws(v).Success?
    ensures r.Success? ==> InPool(Draws(v).value, r.value)
    ensures r.Failure? ==> r.error == Draws(v).error
  {
    match Draws(v)
    case Failure(e) => r := Failure(e);
    case Success(p) =>
      assert InPool(p, if p.OneOf? then p.items[0] else p.lo);
      var n :| InPool(p, n);
      r := Success(n);
  }

  lemma NoDash(n: nat)
    ensures '-' !in NatDigits(n)
  {
    var s := NatDigits(n);
    assert forall i :: 0 <= i < |s| ==> s[i] != '-';
  }

  /** "a-b" splits at its one dash into the two numbers' digits. */
  lemma DashSplit(a: nat, b: nat)
    ensures Split(NatDigits(a) + "-" + NatDigits(b), '-') == [NatDigits(a), NatDigits(b)]
  {
    NoDash(a);
    NoDash(b);
    SplitAtFirst(NatDigits(a), '-', NatDigits(b));
    assert NatDigits(a) + "-" + NatDigits(b) == NatDigits(a) + ['-'] + NatDigits(b);
  }

  /** A plain number written as text is read back as itself. */
  lemma PlainTextDraws(n: nat)
    ensures Draws(Text(NatDigits(n))) == Success(OneOf([n]))
  {
    NoDash(n);
    DigitsRoundTrip(n);
  }

  /** The range "lo-hi" draws exactly the numbers from lo to hi, and is
      refused when lo > hi. */
  lemma RangeDraws(lo: nat, hi: nat)
    ensures Draws(Text(NatDigits(lo) + "-" + NatDigits(hi))) ==
              if lo <= hi then Success(Span(lo, hi)) else Failure(ValueError)
  {
    var a, b := NatDigits(lo), NatDigits(hi);
    var s := a + "-" + b;
    DashSplit(lo, hi);
    assert s[|a|] == '-';
    DigitsRoundTrip(lo);
    DigitsRoundTrip(hi);
  }

  /** A negative number written as text, such as "-3", is split at its
      sign and refused. */
  lemma NegativeTextRefused(n: nat)
    ensures Draws(Text("-" + NatDigits(n))) == Failure(ValueError)
  {
    var b := NatDigits(n);
    var s := "-" + b;
    NoDash(n);
    SplitAtFirst("", '-', b);
    assert s == "" + ['-'] + b;
    assert s[0] == '-';
    assert Split(s, '-') == ["", b];
  }

  // ---------------------------------------------------------------------
  // [x, y] = map(int, ...)

  /** `int(v)` of one item: numbers pass, texts are parsed, and a list is
      a TypeError. */
  function PyInt(v: Scalar): (r: Result<int>)
    ensures v.Num? ==> r == Success(v.n)
    ensures v.Choices? ==> r == Failure(TypeError)
  {
    match v
    case Num(n) => Success(n)
    case Text(s) => ParseInt(s)
    case Choices(_) => Failure(TypeError)
  }

  /** `[x, y] = map(int, items)`: the items are converted one by one as
      the unpacking asks for them (up to a third, which proves there are
      too many), so the first item that fails decides the error; otherwise
      anything but exactly two items is a ValueError. */
  function UnpackPair(items: seq<Scalar>): (r: Result<(int, int)>)
    ensures r.Success? <==> |items| == 2 && PyInt(items[0]).Success? && PyInt(items[1]).Success?
    ensures r.Success? ==> r.value == (PyInt(items[0]).value, PyInt(items[1]).value)
  {
    if |items| > 0 && PyInt(items[0]).Failure? then Failure(PyInt(items[0]).error)
    else if |items| > 1 && PyInt(items[1]).Failure? then Failure(PyInt(items[1]).error)
    else if |items| > 2 && PyInt(items[2]).Failure? then Failure(PyInt(items[2]).error)
    else if |items| != 2 then Failure(ValueError)
    else Success((PyInt(items[0]).value, PyInt(items[1]).value))
  }

  /** A flag written as two numbers, or as their decimal texts, is read
      back as that position. */
  lemma PairRoundTrip(x: int, y: int)
    ensures UnpackPair([Num(x), Num(y)]) == Success((x, y))
    ensures UnpackPair([Text(IntToString(x)), Text(IntToString(y))]) == Success((x, y))
  {
    IntRoundTrip(x);
    IntRoundTrip(y);
  }

  // ---------------------------------------------------------------------
  // parse_walls

  /** `add_wall(x, y, d)` on the wall arrays: a normal wall in the slot of
      the cell reached. */
  function PlaceWall(g: Grid, x: int, y: int, d: DirSpec): (r: Result<Grid>)
    requires WellFormed(g)
    ensures r.Success? ==> WellFormed(r.value) && r.value.rows == g.rows && r.value.cols == g.cols
  {
    match CellAt(g, x, y)
    case Failure(e) => Failure(e)
    case Success((cx, cy)) =>
      match GetDir(d)
      case Failure(e) => Failure(e)
      case Success(dir) => Success(SetSlot(g, cx, cy, dir, KindValue(Normal)))
  }

  /** The inner loop of `parse_walls`: every direction listed for one cell. */
  function PlaceDirs(g: Grid, x: int, y: int, dirs: seq<DirSpec>): (r: Result<Grid>)
    requires WellFormed(g)
    ensures r.Success? ==> WellFormed(r.value) && r.value.rows == g.rows && r.value.cols == g.cols
    decreases |dirs|
  {
    if |dirs| == 0 then Success(g)
    else match PlaceWall(g, x, y, dirs[0])
      case Failure(e) => Failure(e)
      case Success(h) => PlaceDirs(h, x, y, dirs[1..])
  }

  /** `parse_walls`: each key is split into a position, then its
      directions are placed; the first failure ends the parse. */
  function PlaceAll(g: Grid, walls: seq<(string, seq<DirSpec>)>): (r: Result<Grid>)
    requires WellFormed(g)
    ensures r.Success? ==> WellFormed(r.value) && r.value.rows == g.rows && r.value.cols == g.cols
    decreases |walls|
  {
    if |walls| == 0 then Success(g)
    else match ParseKey(walls[0].0)
      case Failure(e) => Failure(e)
      case Success((x, y)) =>
        match PlaceDirs(g, x, y, walls[0].1)
        case Failure(e) => Failure(e)
        case Success(h) => PlaceAll(h, walls[1..])
  }

  /** What is left of `parse_walls` once one cell's directions have been
      placed (or have failed). */
  function PlaceRest(r: Result<Grid>, walls: seq<(string, seq<DirSpec>)>): Result<Grid>
    requires r.Success? ==> WellFormed(r.value)
  {
    match r
    case Failure(e) => Failure(e)
    case Success(h) => PlaceAll(h, walls)
  }

  lemma PlaceAllStep(g: Grid, walls: seq<(string, seq<DirSpec>)>)
    requires WellFormed(g) && |walls| > 0
    ensures PlaceAll(g, walls) ==
      match ParseKey(walls[0].0)
      case Failure(e) => Failure(e)
      case Success((x, y)) => PlaceRest(PlaceDirs(g, x, y, walls[0].1), walls[1..])
  {
  }

  /** The wall a world file lists for `key` in direction `d` is present. */
  predicate Stands(g: Grid, key: string, d: DirSpec)
  {
    && WellFormed(g)
    && ParseKey(key).Success?
    && CellAt(g, ParseKey(key).value.0, ParseKey(key).value.1).Success?
    && GetDir(d).Success?
    && var (cx, cy) := CellAt(g, ParseKey(key).value.0, ParseKey(key).value.1).value;
       HasWall(g, cx, cy, GetDir(d).value)
  }

  /** Placing a wall takes no wall away, and puts up the one it names. */
  lemma PlaceWallKeeps(g: Grid, x: int, y: int, d: DirSpec, key: string, d': DirSpec)
    requires WellFormed(g) && PlaceWall(g, x, y, d).Success?
    requires Stands(g, key, d') || (ParseKey(key) == Success((x, y)) && d' == d)
    ensures Stands(PlaceWall(g, x, y, d).value, key, d')
  {
    var h := PlaceWall(g, x, y, d).value;
    var (kx, ky) := ParseKey(key).value;
    CellAtSize(g, h, kx, ky);
    var v := KindValue(Normal);
    assert HasFlag(v, NORMAL);
  }

  lemma {:induction false} PlaceDirsKeeps(g: Grid, x: int, y: int, dirs: seq<DirSpec>, key: string, d': DirSpec)
    requires WellFormed(g) && PlaceDirs(g, x, y, dirs).Success?
    requires Stands(g, key, d') || (ParseKey(key) == Success((x, y)) && d' in dirs)
    ensures Stands(PlaceDirs(g, x, y, dirs).value, key, d')
    decreases |dirs|
  {
    if |dirs| > 0 {
      var h := PlaceWall(g, x, y, dirs[0]).value;
      if Stands(g, key, d') || d' == dirs[0] {
        PlaceWallKeeps(g, x, y, dirs[0], key, d');
      } else {
        assert d' in dirs[1..];
      }
      PlaceDirsKeeps(h, x, y, dirs[1..], key, d');
    }
  }

  /** Every wall a world file lists stands once `parse_walls` is through:
      later walls only add. */
  lemma {:induction false} PlacedWallsStand(g: Grid, walls: seq<(string, seq<DirSpec>)>, i: int, d: DirSpec)
    requires WellFormed(g) && PlaceAll(g, walls).Success?
    requires 0 <= i < |walls| && d in walls[i].1
    ensures Stands(PlaceAll(g, walls).value, walls[i].0, d)
  {
    PlaceAllKeeps(g, walls, walls[i].0, d, i);
  }

  lemma {:induction false} PlaceAllKeeps(g: Grid, walls: seq<(string, seq<DirSpec>)>, key: string, d: DirSpec, i: int)
    requires WellFormed(g) && PlaceAll(g, walls).Success?
    requires Stands(g, key, d) || (0 <= i < |walls| && key == walls[i].0 && d in walls[i].1)
    ensures Stands(PlaceAll(g, walls).value, key, d)
    decreases |walls|
  {
    if |walls| > 0 {
      var (x, y) := ParseKey(walls[0].0).value;
      var h := PlaceDirs(g, x, y, walls[0].1).value;
      if Stands(g, key, d) || i == 0 {
        PlaceDirsKeeps(g, x, y, walls[0].1, key, d);
        PlaceAllKeeps(h, walls[1..], key, d, -1);
      } else {
        PlaceAllKeeps(h, walls[1..], key, d, i - 1);
      }
    }
  }

  /** The inner loop of `parse_walls`: `add_wall` for each direction
      listed for the cell at (x, y). */
  method WallsOfCell(world: WorldModel, x: int, y: int, dirs: seq<DirSpec>) returns (out: Outcome)
    requires world.Valid()
    modifies world`hwalls, world`vwalls
    ensures world.Valid()
    ensures out.Pass? <==> PlaceDirs(old(world.Walls()), x, y, dirs).Success?
    ensures out.Pass? ==> world.Walls() == PlaceDirs(old(world.Walls()), x, y, dirs).value
    ensures out.Fail? ==> out.error == PlaceDirs(old(world.Walls()), x, y, dirs).error
  {
    ghost var whole := PlaceDirs(world.Walls(), x, y, dirs);
    var j := 0;
    while j < |dirs|
      invariant 0 <= j <= |dirs|
      invariant world.Valid()
      invariant whole == PlaceDirs(world.Walls(), x, y, dirs[j..])
    {
      assert dirs[j..][0] == dirs[j] && dirs[j..][1..] == dirs[j + 1..];
      ghost var next := PlaceWall(world.Walls(), x, y, dirs[j]);
      var r := world.AddWall(x, y, dirs[j], Normal);
      if r.Fail? {
        assert next == Failure(r.error);
        return r;
      }
      assert next == Success(world.Walls());
      j := j + 1;
    }
    assert dirs[j..] == [];
    out := Pass;
  }

  /** `parse_walls`. */
  method ParseWalls(world: WorldModel, walls: seq<(string, seq<DirSpec>)>) returns (out: Outcome)
    requires world.Valid()
    modifies world`hwalls, world`vwalls
    ensures world.Valid()
    ensures out.Pass? <==> PlaceAll(old(world.Walls()), walls).Success?
    ensures out.Pass? ==> world.Walls() == PlaceAll(old(world.Walls()), walls).value
    ensures out.Fail? ==> out.error == PlaceAll(old(world.Walls()), walls).error
  {
    ghost var whole := PlaceAll(world.Walls(), walls);
    var i := 0;
    while i < |walls|
      invariant 0 <= i <= |walls|
      invariant world.Valid()
      invariant whole == PlaceAll(world.Walls(), walls[i..])
    {
      var (key, dirs) := walls[i];
      PlaceAllStep(world.Walls(), walls[i..]);
      assert walls[i..][0] == walls[i] && walls[i..][1..] == walls[i + 1..];
      var pos := ParseKey(key);
      if pos.Failure? {
        return Fail(pos.error);
      }
      var (x, y) := pos.value;
      var r := WallsOfCell(world, x, y, dirs);
      if r.Fail? {
        return r;
      }
      i := i + 1;
    }
    assert walls[i..] == [];
    out := Pass;
  }

  // ---------------------------------------------------------------------
  // parse_tiles

  /** The background `parse_tiles` gives a tile entry: a name is wrapped
      in a one-element list, a list is kept, anything else is skipped. */
  function TileOf(t: TileSpec): (bg: Option<Background>)
    ensures t.TileOther? <==> bg.None?
  {
    match t
    case TileName(name) => Some(Layers([name]))
    case TileList(names) => Some(Layers(names))
    case TileOther => None
  }

  /** One entry of `parse_tiles` at (x, y): a tile that is laid needs a
      cell there. */
  function LayOne(g: Grid, tiles: seq<seq<Option<Background>>>, x: int, y: int, t: TileSpec): (r: Result<seq<seq<Option<Background>>>>)
    requires TileGrid(tiles, g.rows, g.cols)
    ensures r.Success? ==> TileGrid(r.value, g.rows, g.cols)
  {
    match TileOf(t)
    case None => Success(tiles)
    case Some(bg) =>
      match CellAt(g, x, y)
      case Failure(e) => Failure(e)
      case Success((cx, cy)) => Success(tiles[cx - 1 := tiles[cx - 1][cy - 1 := Some(bg)]])
  }

  /** The tile grid after `parse_tiles`, or the first error. */
  function LayTiles(g: Grid, tiles: seq<seq<Option<Background>>>, specs: seq<(string, TileSpec)>): (r: Result<seq<seq<Option<Background>>>>)
    requires TileGrid(tiles, g.rows, g.cols)
    ensures r.Success? ==> TileGrid(r.value, g.rows, g.cols)
    decreases |specs|
  {
    if |specs| == 0 then Success(tiles)
    else match ParseKey(specs[0].0)
      case Failure(e) => Failure(e)
      case Success((x, y)) =>
        match LayOne(g, tiles, x, y, specs[0].1)
        case Failure(e) => Failure(e)
        case Success(next) => LayTiles(g, next, specs[1..])
  }

  /** The tile a world file lists last is the one left on its cell. */
  lemma {:induction false} LastTileWins(g: Grid, tiles: seq<seq<Option<Background>>>, specs: seq<(string, TileSpec)>)
    requires TileGrid(tiles, g.rows, g.cols) && LayTiles(g, tiles, specs).Success?
    requires |specs| > 0 && TileOf(specs[|specs| - 1].1).Some?
    ensures ParseKey(specs[|specs| - 1].0).Success?
    ensures var (x, y) := ParseKey(specs[|specs| - 1].0).value;
      && CellAt(g, x, y).Success?
      && var (cx, cy) := CellAt(g, x, y).value;
         LayTiles(g, tiles, specs).value[cx - 1][cy - 1] == TileOf(specs[|specs| - 1].1)
    decreases |specs|
  {
    var (x, y) := ParseKey(specs[0].0).value;
    var next := LayOne(g, tiles, x, y, specs[0].1).value;
    assert LayTiles(g, tiles, specs) == LayTiles(g, next, specs[1..]);
    if |specs| > 1 {
      assert specs[1..][|specs[1..]| - 1] == specs[|specs| - 1];
      LastTileWins(g, next, specs[1..]);
    }
  }

  lemma LayTilesStep(g: Grid, tiles: seq<seq<Option<Background>>>, specs: seq<(string, TileSpec)>)
    requires TileGrid(tiles, g.rows, g.cols) && |specs| > 0
    ensures LayTiles(g, tiles, specs) ==
      match ParseKey(specs[0].0)
      case Failure(e) => Failure(e)
      case Success((x, y)) =>
        var next := LayOne(g, tiles, x, y, specs[0].1);
        if next.Failure? then Failure(next.error) else LayTiles(g, next.value, specs[1..])
  {
  }

  /** One entry of `parse_tiles`. */
  method TileOfCell(world: WorldModel, x: int, y: int, t: TileSpec) returns (out: Outcome)
    requires world.Valid()
    modifies world`tiles, world`cells
    ensures world.Valid()
    ensures out.Pass? <==> LayOne(world.Walls(), old(world.tiles), x, y, t).Success?
    ensures out.Pass? ==> world.tiles == LayOne(world.Walls(), old(world.tiles), x, y, t).value
    ensures out.Fail? ==> out.error == LayOne(world.Walls(), old(world.tiles), x, y, t).error
  {
    var bg := TileOf(t);
    out := Pass;
    if bg.Some? {
      out := world.AddTile(x, y, bg.value);
    }
  }

  /** `parse_tiles`. */
  method ParseTiles(world: WorldModel, specs: seq<(string, TileSpec)>) returns (out: Outcome)
    requires world.Valid()
    modifies world`tiles, world`cells
    ensures world.Valid()
    ensures out.Pass? <==> LayTiles(world.Walls(), old(world.tiles), specs).Success?
    ensures out.Pass? ==> world.tiles == LayTiles(world.Walls(), old(world.tiles), specs).value
    ensures out.Fail? ==> out.error == LayTiles(world.Walls(), old(world.tiles), specs).error
  {
    ghost var whole := LayTiles(world.Walls(), world.tiles, specs);
    var i := 0;
    while i < |specs|
      invariant 0 <= i <= |specs|
      invariant world.Valid()
      invariant whole == LayTiles(world.Walls(), world.tiles, specs[i..])
    {
      var (key, tile) := specs[i];
      LayTilesStep(world.Walls(), world.tiles, specs[i..]);
      assert specs[i..][0] == specs[i] && specs[i..][1..] == specs[i + 1..];
      var pos := ParseKey(key);
      if pos.Failure? {
        return Fail(pos.error);
      }
      var (x, y) := pos.value;
      var r := TileOfCell(world, x, y, tile);
      if r.Fail? {
        return r;
      }
      i := i + 1;
    }
    assert specs[i..] == [];
    out := Pass;
  }

  // ---------------------------------------------------------------------
  // parse_messages and parse_flags

  /** The key under which the engine files the position a key names:
      `"{},{}".format(x, y)` of the parsed key, so "01,2" files as "1,2". */
  function Canon(key: string): string
  {
    match ParseKey(key)
    case Success((x, y)) => PosKey(x, y)
    case Failure(_) => key
  }

  /** Storing values under keys one after another, as `d[k] = v` does. */
  function FileAll<V>(m: map<string, V>, kvs: seq<(string, V)>): map<string, V>
    decreases |kvs|
  {
    if |kvs| == 0 then m else FileAll(m[kvs[0].0 := kvs[0].1], kvs[1..])
  }

  /** The position of the last pair stored under `k`, or -1. */
  function LastIndex<V>(kvs: seq<(string, V)>, k: string): (i: int)
    ensures -1 <= i < |kvs|
    ensures 0 <= i ==> kvs[i].0 == k
    decreases |kvs|
  {
    if |kvs| == 0 then -1
    else if kvs[|kvs| - 1].0 == k then |kvs| - 1
    else LastIndex(kvs[..|kvs| - 1], k)
  }

  /** Every pair stored under `k` comes at or before the last one. */
  lemma {:induction false} LastIndexFound<V>(kvs: seq<(string, V)>, k: string, i: int)
    requires 0 <= i < |kvs| && kvs[i].0 == k
    ensures i <= LastIndex(kvs, k)
    decreases |kvs|
  {
    if kvs[|kvs| - 1].0 != k {
      LastIndexFound(kvs[..|kvs| - 1], k, i);
    }
  }

  lemma {:induction false} LastIndexFront<V>(kvs: seq<(string, V)>, k: string)
    requires |kvs| > 0
    ensures LastIndex(kvs, k) ==
      if LastIndex(kvs[1..], k) >= 0 then LastIndex(kvs[1..], k) + 1
      else if kvs[0].0 == k then 0 else -1
    decreases |kvs|
  {
    if |kvs| > 1 && kvs[|kvs| - 1].0 != k {
      assert kvs[..|kvs| - 1][1..] == kvs[1..][..|kvs[1..]| - 1];
      LastIndexFront(kvs[..|kvs| - 1], k);
    }
  }

  /** A key is in the table afterwards exactly when it was before or is
      stored; its value is the last one stored under it, or the old one. */
  lemma {:induction false} FileAllMeaning<V>(m: map<string, V>, kvs: seq<(string, V)>, k: string)
    ensures k in FileAll(m, kvs) <==> k in m || LastIndex(kvs, k) >= 0
    ensures k in FileAll(m, kvs) ==>
      FileAll(m, kvs)[k] == if LastIndex(kvs, k) >= 0 then kvs[LastIndex(kvs, k)].1 else m[k]
    decreases |kvs|
  {
    if |kvs| > 0 {
      FileAllMeaning(m[kvs[0].0 := kvs[0].1], kvs[1..], k);
      LastIndexFront(kvs, k);
    }
  }

  /** The message table after `parse_messages`, or the first error. Each
      message is filed under its key before its cell is looked up. */
  function PostMessages(g: Grid, msgs: map<string, string>, entries: seq<(string, string)>): (r: Result<map<string, string>>)
    decreases |entries|
  {
    if |entries| == 0 then Success(msgs)
    else match ParseKey(entries[0].0)
      case Failure(e) => Failure(e)
      case Success((x, y)) =>
        match CellAt(g, x, y)
        case Failure(e) => Failure(e)
        case Success(_) => PostMessages(g, msgs[PosKey(x, y) := entries[0].1], entries[1..])
  }

  /** The pairs `parse_messages` files: each text under its canonical key. */
  function Filed(entries: seq<(string, string)>): (kvs: seq<(string, string)>)
    ensures |kvs| == |entries|
    ensures forall i :: 0 <= i < |entries| ==> kvs[i] == (Canon(entries[i].0), entries[i].1)
  {
    seq(|entries|, i requires 0 <= i < |entries| => (Canon(entries[i].0), entries[i].1))
  }

  /** The position `key` names, if it names a cell of the grid. */
  predicate Reaches(g: Grid, key: string)
  {
    ParseKey(key).Success? && CellAt(g, ParseKey(key).value.0, ParseKey(key).value.1).Success?
  }

  /** `parse_messages` succeeds exactly when every key names a cell of
      the grid. */
  lemma {:induction false} MessagesParse(g: Grid, msgs: map<string, string>, entries: seq<(string, string)>)
    ensures PostMessages(g, msgs, entries).Success? <==> forall i :: 0 <= i < |entries| ==> Reaches(g, entries[i].0)
    decreases |entries|
  {
    if |entries| > 0 {
      var rest := entries[1..];
      assert forall i :: 0 <= i < |rest| ==> rest[i] == entries[i + 1];
      if Reaches(g, entries[0].0) {
        var (x, y) := ParseKey(entries[0].0).value;
        MessagesParse(g, msgs[PosKey(x, y) := entries[0].1], rest);
      }
    }
  }

  /** Then it files every text under its key, in order. */
  lemma {:induction false} MessagesFiled(g: Grid, msgs: map<string, string>, entries: seq<(string, string)>)
    requires forall i :: 0 <= i < |entries| ==> Reaches(g, entries[i].0)
    ensures PostMessages(g, msgs, entries) == Success(FileAll(msgs, Filed(entries)))
    decreases |entries|
  {
    if |entries| > 0 {
      var rest := entries[1..];
      assert forall i :: 0 <= i < |rest| ==> rest[i] == entries[i + 1];
      var (x, y) := ParseKey(entries[0].0).value;
      MessagesFiled(g, msgs[PosKey(x, y) := entries[0].1], rest);
      assert Filed(entries)[1..] == Filed(rest);
    }
  }

  lemma PostMessagesStep(g: Grid, msgs: map<string, string>, entries: seq<(string, string)>)
    requires |entries| > 0
    ensures PostMessages(g, msgs, entries) ==
      match ParseKey(entries[0].0)
      case Failure(e) => Failure(e)
      case Success((x, y)) =>
        if CellAt(g, x, y).Failure? then Failure(IndexError)
        else PostMessages(g, msgs[PosKey(x, y) := entries[0].1], entries[1..])
  {
  }

  /** `parse_messages`. */
  method ParseMessages(world: WorldModel, entries: seq<(string, string)>) returns (out: Outcome)
    requires world.Valid()
    modifies world`messages, world`cells
    ensures world.Valid()
    ensures out.Pass? <==> PostMessages(world.Walls(), old(world.messages), entries).Success?
    ensures out.Pass? ==> world.messages == PostMessages(world.Walls(), old(world.messages), entries).value
    ensures out.Fail? ==> out.error == PostMessages(world.Walls(), old(world.messages), entries).error
  {
    ghost var whole := PostMessages(world.Walls(), world.messages, entries);
    var i := 0;
    while i < |entries|
      invariant 0 <= i <= |entries|
      invariant world.Valid()
      invariant whole == PostMessages(world.Walls(), world.messages, entries[i..])
    {
      var (key, msg) := entries[i];
      PostMessagesStep(world.Walls(), world.messages, entries[i..]);
      assert entries[i..][0] == entries[i] && entries[i..][1..] == entries[i + 1..];
      var pos := ParseKey(key);
      if pos.Failure? {
        return Fail(pos.error);
      }
      var (x, y) := pos.value;
      var r := world.AddMsg(x, y, msg);
      if r.Fail? {
        return r;
      }
      i := i + 1;
    }
    assert entries[i..] == [];
    out := Pass;
  }

  /** The flag table after `parse_flags`, or the first error. */
  function PlantFlags(flags: map<string, int>, items: seq<seq<Scalar>>): (r: Result<map<string, int>>)
    decreases |items|
  {
    if |items| == 0 then Success(flags)
    else match UnpackPair(items[0])
      case Failure(e) => Failure(e)
      case Success((x, y)) => PlantFlags(flags[PosKey(x, y) := 1], items[1..])
  }

  /** The pairs `parse_flags` files: a count of one under each flag's key. */
  function Planted(items: seq<seq<Scalar>>): (kvs: seq<(string, int)>)
    requires forall i :: 0 <= i < |items| ==> UnpackPair(items[i]).Success?
    ensures |kvs| == |items|
    ensures forall i :: 0 <= i < |items| ==>
      kvs[i] == (PosKey(UnpackPair(items[i]).value.0, UnpackPair(items[i]).value.1), 1)
  {
    seq(|items|, i requires 0 <= i < |items| && UnpackPair(items[i]).Success? =>
      (PosKey(UnpackPair(items[i]).value.0, UnpackPair(items[i]).value.1), 1))
  }

  /** `parse_flags` succeeds exactly when every entry is a pair of
      integers. */
  lemma {:induction false} FlagsParse(flags: map<string, int>, items: seq<seq<Scalar>>)
    ensures PlantFlags(flags, items).Success? <==> forall i :: 0 <= i < |items| ==> UnpackPair(items[i]).Success?
    decreases |items|
  {
    if |items| > 0 {
      var rest := items[1..];
      assert forall i :: 0 <= i < |rest| ==> rest[i] == items[i + 1];
      if UnpackPair(items[0]).Success? {
        var (x, y) := UnpackPair(items[0]).value;
        FlagsParse(flags[PosKey(x, y) := 1], rest);
      }
    }
  }

  /** Then it puts a count of one under every listed position, in order. */
  lemma {:induction false} FlagsPlanted(flags: map<string, int>, items: seq<seq<Scalar>>)
    requires forall i :: 0 <= i < |items| ==> UnpackPair(items[i]).Success?
    ensures PlantFlags(flags, items) == Success(FileAll(flags, Planted(items)))
    decreases |items|
  {
    if |items| > 0 {
      var rest := items[1..];
      assert forall i :: 0 <= i < |rest| ==> rest[i] == items[i + 1];
      var (x, y) := UnpackPair(items[0]).value;
      FlagsPlanted(flags[PosKey(x, y) := 1], rest);
      assert Planted(items)[1..] == Planted(rest);
    }
  }

  lemma PlantFlagsStep(flags: map<string, int>, items: seq<seq<Scalar>>)
    requires |items| > 0
    ensures PlantFlags(flags, items) ==
      match UnpackPair(items[0])
      case Failure(e) => Failure(e)
      case Success((x, y)) => PlantFlags(flags[PosKey(x, y) := 1], items[1..])
  {
  }

  /** `parse_flags`. */
  method ParseFlags(world: WorldModel, items: seq<seq<Scalar>>) returns (out: Outcome)
    modifies world`flags
    ensures out.Pass? <==> PlantFlags(old(world.flags), items).Success?
    ensures out.Pass? ==> world.flags == PlantFlags(old(world.flags), items).value
    ensures out.Fail? ==> out.error == PlantFlags(old(world.flags), items).error
  {
    ghost var whole := PlantFlags(world.flags, items);
    var i := 0;
    while i < |items|
      invariant 0 <= i <= |items|
      invariant whole == PlantFlags(world.flags, items[i..])
    {
      PlantFlagsStep(world.flags, items[i..]);
      assert items[i..][0] == items[i] && items[i..][1..] == items[i + 1..];
      var pos := UnpackPair(items[i]);
      if pos.Failure? {
        return Fail(pos.error);
      }
      world.AddFlag(pos.value.0, pos.value.1);
      i := i + 1;
    }
    assert items[i..] == [];
    out := Pass;
  }

  // ---------------------------------------------------------------------
  // parse_dimensions, parse_scene_config, parse_robots, parse_description

  /** `parse_dimensions`: `config["rows"]` and `config["cols"]` are read
      (a missing one is a KeyError) and drawn with `parse_val`, rows
      first; the grid is then made afresh at the drawn size, capped at 20. */
  method ParseDimensions(world: WorldModel, rows: Option<Scalar>, cols: Option<Scalar>) returns (out: Outcome)
    requires world.Valid()
    modifies world`rows, world`cols, world`hwalls, world`vwalls, world`cells, world`tiles
    ensures world.Valid()
    ensures out.Pass? <==> rows.Some? && cols.Some? && Draws(rows.value).Success? && Draws(cols.value).Success?
    ensures out.Fail? ==>
      && out.error == (if rows.None? then KeyError
                       else if Draws(rows.value).Failure? then Draws(rows.value).error
                       else if cols.None? then KeyError
                       else Draws(cols.value).error)
      && world.Walls() == old(world.Walls())
    ensures out.Pass? ==>
      && (exists r :: InPool(Draws(rows.value).value, r) && world.rows == Min(r, MAX_ROWS))
      && (exists c :: InPool(Draws(cols.value).value, c) && world.cols == Min(c, MAX_COLS))
      && world.hwalls == ZeroArray(world.rows, world.cols)
      && world.vwalls == ZeroArray(world.rows, world.cols)
      && world.tiles == EmptyTiles(world.rows, world.cols)
  {
    if rows.None? {
      return Fail(KeyError);
    }
    var r := ParseVal(rows.value);
    if r.Failure? {
      return Fail(r.error);
    }
    if cols.None? {
      return Fail(KeyError);
    }
    var c := ParseVal(cols.value);
    if c.Failure? {
      return Fail(c.error);
    }
    world.SetDimensions(r.value, c.value);
    out := Pass;
  }

  /** `parse_scene_config`: the grid line colour, "gray" by default. */
  method ParseSceneConfig(world: WorldModel, gridLineColor: Option<string>)
    modifies world`gridLineColor
    ensures world.gridLineColor == if gridLineColor.Some? then gridLineColor.value else "gray"
  {
    world.gridLineColor := if gridLineColor.Some? then gridLineColor.value else "gray";
  }

  /** The robot `parse_robots` makes of a record: at one of its possible
      initial positions when it lists any, else at its own x and y;
      facing east and tracing in red unless the record says otherwise. */
  predicate RobotFrom(r: RobotModel, s: RobotSpec)
  {
    && (if |s.initial| > 0 then (r.x, r.y) in s.initial else r.x == s.x && r.y == s.y)
    && r.orientation == (if s.orientation.Some? then s.orientation.value else 0)
    && r.traceColor == (if s.traceColor.Some? then s.traceColor.value else "red")
  }

  /** The robots `parse_robots` appends: one per record, in order. */
  predicate RobotsFrom(added: seq<RobotModel>, specs: seq<RobotSpec>)
  {
    |added| == |specs| && forall i :: 0 <= i < |specs| ==> RobotFrom(added[i], specs[i])
  }

  /** `parse_robots`: one robot per record, appended in file order. */
  method ParseRobots(world: WorldModel, specs: seq<RobotSpec>)
    modifies world`robots
    ensures |world.robots| >= |old(world.robots)|
    ensures world.robots[..|old(world.robots)|] == old(world.robots)
    ensures RobotsFrom(world.robots[|old(world.robots)|..], specs)
  {
    ghost var before := world.robots;
    var i := 0;
    while i < |specs|
      invariant 0 <= i <= |specs|
      invariant |world.robots| == |before| + i
      invariant world.robots[..|before|] == before
      invariant forall t :: 0 <= t < i ==> RobotFrom(world.robots[|before| + t], specs[t])
    {
      var s := specs[i];
      var x, y := s.x, s.y;
      if |s.initial| > 0 {
        assert s.initial[0] in s.initial;
        var p :| p in s.initial;
        x, y := p.0, p.1;
      }
      var orientation := if s.orientation.Some? then s.orientation.value else 0;
      var color := if s.traceColor.Some? then s.traceColor.value else "red";
      world.AddRobot(x, y, orientation, color);
      assert RobotFrom(world.robots[|before| + i], s);
      i := i + 1;
    }
    assert RobotsFrom(world.robots[|before|..], specs);
  }

  /** The description `add_description` stores: a text as given, a list
      of lines joined with line breaks. */
  function Described(desc: DescSpec): Option<string>
  {
    match desc
    case DescText(t) => t
    case DescLines(lines) => Some(JoinLines(lines))
  }

  /** `parse_description`. */
  method ParseDescription(world: WorldModel, desc: DescSpec)
    modifies world`description
    ensures world.description == Described(desc)
  {
    world.AddDescription(desc);
  }

  // ---------------------------------------------------------------------
  // parse_objects

  /** One `(position, name, value)` item of the `objects` section. */
  datatype Entry = Entry(key: string, name: string, val: Scalar)

  function Expand(key: string, items: seq<(string, Scalar)>): (es: seq<Entry>)
    ensures |es| == |items|
    ensures forall j :: 0 <= j < |items| ==> es[j] == Entry(key, items[j].0, items[j].1)
  {
    seq(|items|, j requires 0 <= j < |items| => Entry(key, items[j].0, items[j].1))
  }

  /** The items of the `objects` section in the order the nested loops
      of `parse_objects` visit them. */
  function Entries(objs: seq<(string, seq<(string, Scalar)>)>): seq<Entry>
    decreases |objs|
  {
    if |objs| == 0 then [] else Expand(objs[0].0, objs[0].1) + Entries(objs[1..])
  }

  /** An item `parse_objects` accepts: its value can be drawn and its key
      is a position. */
  predicate Good(e: Entry)
  {
    Draws(e.val).Success? && ParseKey(e.key).Success?
  }

  /** `r` is a possible outcome of `parse_objects` over `es` from the table
      `m`: each item's value is drawn first, then its key is split, and the
      position's entry is replaced by the single pile `{name: value}`. */
  ghost predicate Stocks(m: map<string, Pile>, es: seq<Entry>, r: Result<map<string, Pile>>)
    decreases |es|
  {
    if |es| == 0 then r == Success(m)
    else match Draws(es[0].val)
      case Failure(e) => r == Failure(e)
      case Success(p) =>
        match ParseKey(es[0].key)
        case Failure(e) => r == Failure(e)
        case Success((x, y)) =>
          exists v :: InPool(p, v) && Stocks(m[PosKey(x, y) := Pile(es[0].name, v)], es[1..], r)
  }

  lemma StocksStep(m: map<string, Pile>, es: seq<Entry>, r: Result<map<string, Pile>>)
    requires |es| > 0 && Good(es[0])
    ensures Stocks(m, es, r) <==>
      exists v :: InPool(Draws(es[0].val).value, v) && Stocks(m[Canon(es[0].key) := Pile(es[0].name, v)], es[1..], r)
  {
  }

  /** `parse_objects` fails only at an item it cannot accept. */
  lemma {:induction false} StocksFailOnlyAtBadItem(m: map<string, Pile>, es: seq<Entry>, e: Error)
    requires Stocks(m, es, Failure(e))
    ensures exists i :: 0 <= i < |es| && !Good(es[i])
    decreases |es|
  {
    if Good(es[0]) {
      StocksStep(m, es, Failure(e));
      var v :| InPool(Draws(es[0].val).value, v) && Stocks(m[Canon(es[0].key) := Pile(es[0].name, v)], es[1..], Failure(e));
      StocksFailOnlyAtBadItem(m[Canon(es[0].key) := Pile(es[0].name, v)], es[1..], e);
      var i :| 0 <= i < |es[1..]| && !Good(es[1..][i]);
      assert es[i + 1] == es[1..][i];
    }
  }

  /** When `parse_objects` succeeds, every item was accepted and every
      position stocked before is still stocked. */
  lemma {:induction false} StockedItemsGood(m: map<string, Pile>, es: seq<Entry>, m': map<string, Pile>)
    requires Stocks(m, es, Success(m'))
    ensures forall i :: 0 <= i < |es| ==> Good(es[i])
    ensures m.Keys <= m'.Keys
    decreases |es|
  {
    if |es| > 0 {
      assert Good(es[0]);
      StocksStep(m, es, Success(m'));
      var v :| InPool(Draws(es[0].val).value, v) && Stocks(m[Canon(es[0].key) := Pile(es[0].name, v)], es[1..], Success(m'));
      var rest := es[1..];
      StockedItemsGood(m[Canon(es[0].key) := Pile(es[0].name, v)], rest, m');
      assert forall i :: 1 <= i < |es| ==> es[i] == rest[i - 1];
    }
  }

  /** Each item paired with the key its position is filed under. */
  function Keyed(es: seq<Entry>): (r: seq<(string, Entry)>)
    ensures |r| == |es|
    ensures forall i :: 0 <= i < |es| ==> r[i].1 == es[i]
    decreases |es|
  {
    if |es| == 0 then [] else [(Canon(es[0].key), es[0])] + Keyed(es[1..])
  }

  /** The table `m'` holds, under `k`, what the last of the keyed items
      filed under `k` says, and otherwise what `m` held. */
  ghost predicate LastWins(m: map<string, Pile>, kes: seq<(string, Entry)>, m': map<string, Pile>, k: string)
  {
    && (k in m' <==> k in m || LastIndex(kes, k) >= 0)
    && (k in m' && LastIndex(kes, k) < 0 ==> m'[k] == m[k])
    && (LastIndex(kes, k) >= 0 ==>
          var e := kes[LastIndex(kes, k)].1;
          k in m' && Draws(e.val).Success? && m'[k].name == e.name && InPool(Draws(e.val).value, m'[k].count))
  }

  /** Filing one pile in front of items that satisfy `LastWins`. */
  lemma LastWinsStep(m: map<string, Pile>, m1: map<string, Pile>, m': map<string, Pile>, kes: seq<(string, Entry)>, k: string, p: Pile)
    requires |kes| > 0 && m1 == m[kes[0].0 := p] && p.name == kes[0].1.name
    requires Draws(kes[0].1.val).Success? && InPool(Draws(kes[0].1.val).value, p.count)
    requires LastWins(m1, kes[1..], m', k)
    ensures LastWins(m, kes, m', k)
  {
    LastIndexFront(kes, k);
    var j := LastIndex(kes[1..], k);
    if j >= 0 {
      assert kes[j + 1] == kes[1..][j];
    }
  }

  lemma {:induction false} StocksLastWins(m: map<string, Pile>, es: seq<Entry>, m': map<string, Pile>, k: string)
    requires Stocks(m, es, Success(m'))
    ensures LastWins(m, Keyed(es), m', k)
    decreases |es|
  {
    if |es| > 0 {
      assert Good(es[0]);
      StocksStep(m, es, Success(m'));
      var v :| InPool(Draws(es[0].val).value, v) && Stocks(m[Canon(es[0].key) := Pile(es[0].name, v)], es[1..], Success(m'));
      StocksLastWins(m[Canon(es[0].key) := Pile(es[0].name, v)], es[1..], m', k);
      assert Keyed(es)[1..] == Keyed(es[1..]);
      LastWinsStep(m, m[Canon(es[0].key) := Pile(es[0].name, v)], m', Keyed(es), k, Pile(es[0].name, v));
    }
  }

  /** When `parse_objects` succeeds, a position holds exactly what the last
      item listed for it says: that item's name, with one of the values its
      text allows. A position no item names keeps what it held, and no
      other position appears. */
  lemma LastNameWins(m: map<string, Pile>, es: seq<Entry>, m': map<string, Pile>, k: string)
    requires Stocks(m, es, Success(m'))
    ensures k in m' <==> k in m || LastIndex(Keyed(es), k) >= 0
    ensures k in m' && LastIndex(Keyed(es), k) < 0 ==> m'[k] == m[k]
    ensures LastIndex(Keyed(es), k) >= 0 ==>
      var e := es[LastIndex(Keyed(es), k)];
      k in m' && Draws(e.val).Success? && m'[k].name == e.name && InPool(Draws(e.val).value, m'[k].count)
  {
    StocksLastWins(m, es, m', k);
  }

  /** The order of the items: one position's items, then the rest. */
  lemma ExpandStep(key: string, items: seq<(string, Scalar)>, j: int, later: seq<Entry>)
    requires 0 <= j < |items|
    ensures (Expand(key, items[j..]) + later)[0] == Entry(key, items[j].0, items[j].1)
    ensures (Expand(key, items[j..]) + later)[1..] == Expand(key, items[j + 1..]) + later
  {
    assert Expand(key, items[j..])[1..] == Expand(key, items[j + 1..]);
  }

  /** The inner loop of `parse_objects`, over the names listed at one key. */
  method ObjectsOfCell(world: WorldModel, key: string, items: seq<(string, Scalar)>, ghost later: seq<Entry>, ghost m0: map<string, Pile>, ghost all: seq<Entry>) returns (out: Outcome)
    requires forall r :: Stocks(world.objects, Expand(key, items) + later, r) ==> Stocks(m0, all, r)
    modifies world`objects
    ensures out.Pass? ==> forall r :: Stocks(world.objects, later, r) ==> Stocks(m0, all, r)
    ensures out.Fail? ==> Stocks(m0, all, Failure(out.error))
  {
    var j := 0;
    assert items[0..] == items;
    while j < |items|
      invariant 0 <= j <= |items|
      invariant forall r :: Stocks(world.objects, Expand(key, items[j..]) + later, r) ==> Stocks(m0, all, r)
    {
      ghost var rest := Expand(key, items[j..]) + later;
      ghost var before := world.objects;
      ExpandStep(key, items, j, later);
      var (name, raw) := items[j];
      var val := ParseVal(raw);
      if val.Failure? {
        assert Stocks(before, rest, Failure(val.error));
        return Fail(val.error);
      }
      var pos := ParseKey(key);
      if pos.Failure? {
        assert Stocks(before, rest, Failure(pos.error));
        return Fail(pos.error);
      }
      world.AddObject(pos.value.0, pos.value.1, name, val.value);
      forall r | Stocks(world.objects, Expand(key, items[j + 1..]) + later, r)
        ensures Stocks(m0, all, r)
      {
        assert Stocks(before, rest, r);
      }
      j := j + 1;
    }
    assert items[j..] == [];
    assert Expand(key, items[j..]) + later == later;
    out := Pass;
  }

  /** `parse_objects`: every outcome it can reach is one `Stocks` allows. */
  method ParseObjects(world: WorldModel, objs: seq<(string, seq<(string, Scalar)>)>) returns (out: Outcome)
    modifies world`objects
    ensures Stocks(old(world.objects), Entries(objs), if out.Pass? then Success(world.objects) else Failure(out.error))
  {
    ghost var m0 := world.objects;
    ghost var all := Entries(objs);
    var i := 0;
    assert objs[0..] == objs;
    while i < |objs|
      invariant 0 <= i <= |objs|
      invariant forall r :: Stocks(world.objects, Entries(objs[i..]), r) ==> Stocks(m0, all, r)
    {
      assert objs[i..][0] == objs[i] && objs[i..][1..] == objs[i + 1..];
      assert Entries(objs[i..]) == Expand(objs[i].0, objs[i].1) + Entries(objs[i + 1..]);
      out := ObjectsOfCell(world, objs[i].0, objs[i].1, Entries(objs[i + 1..]), m0, all);
      if out.Fail? {
        return;
      }
      i := i + 1;
    }
    assert objs[i..] == [];
    assert Stocks(world.objects, Entries(objs[i..]), Success(world.objects));
    out := Pass;
  }

  // ---------------------------------------------------------------------
  // parse_goals

  /** The configuration `_add_goal` receives for a goal at (x, y): the
      fields the goal class reads, the others left at their defaults. */
  function GoalAt(x: Scalar, y: Scalar, walls: seq<DirSpec>, name: string, val: Scalar): GoalConfig
  {
    GoalConfig(x, y, walls, name, val, 0, "")
  }

  /** `pre + r`, for a list of goals that may not have been made. */
  function Prepend(pre: seq<Goal>, r: Result<seq<Goal>>): Result<seq<Goal>>
  {
    match r
    case Failure(e) => Failure(e)
    case Success(gs) => Success(pre + gs)
  }

  /** The goals `add_wall_goals` adds: one wall goal per key. */
  function WallGoalsOf(walls: seq<(string, seq<DirSpec>)>): Result<seq<Goal>>
    decreases |walls|
  {
    if |walls| == 0 then Success([])
    else match ParseKey(walls[0].0)
      case Failure(e) => Failure(e)
      case Success((x, y)) => Prepend([WallGoal(x, y, walls[0].1)], WallGoalsOf(walls[1..]))
  }

  /** `add_wall_goals` succeeds exactly when every key is a position, and
      then adds, in order, a wall goal for each key with its directions. */
  lemma {:induction false} WallGoalsMeaning(walls: seq<(string, seq<DirSpec>)>)
    ensures WallGoalsOf(walls).Success? <==> forall i :: 0 <= i < |walls| ==> ParseKey(walls[i].0).Success?
    ensures WallGoalsOf(walls).Success? ==>
      && |WallGoalsOf(walls).value| == |walls|
      && forall i :: 0 <= i < |walls| ==>
           WallGoalsOf(walls).value[i] == WallGoal(ParseKey(walls[i].0).value.0, ParseKey(walls[i].0).value.1, walls[i].1)
    decreases |walls|
  {
    if |walls| > 0 {
      var rest := walls[1..];
      assert forall i :: 1 <= i < |walls| ==> walls[i] == rest[i - 1];
      WallGoalsMeaning(rest);
    }
  }

  lemma PrependAssoc(a: seq<Goal>, b: seq<Goal>, r: Result<seq<Goal>>)
    ensures Prepend(a, Prepend(b, r)) == Prepend(a + b, r)
  {
    if r.Success? {
      assert a + (b + r.value) == a + b + r.value;
    }
  }

  /** `_add_goal(kind, ...)` for a kind whose goal sits at a position:
      with numeric coordinates the goal is always made. */
  method AddGoalAt(world: WorldModel, kind: string, x: int, y: int, walls: seq<DirSpec>, name: string, val: Scalar)
    requires kind == "wall" || kind == "object"
    modifies world`goals
    ensures world.goals == old(world.goals) + [if kind == "wall" then WallGoal(x, y, walls) else ObjectGoal(x, y, name, val)]
  {
    var r := world.AddGoalOfKind(kind, GoalAt(Num(x), Num(y), walls, name, val));
  }

  lemma WallGoalsStep(walls: seq<(string, seq<DirSpec>)>)
    requires |walls| > 0
    ensures WallGoalsOf(walls) ==
      if ParseKey(walls[0].0).Failure? then Failure(ParseKey(walls[0].0).error)
      else Prepend([WallGoal(ParseKey(walls[0].0).value.0, ParseKey(walls[0].0).value.1, walls[0].1)], WallGoalsOf(walls[1..]))
  {
  }

  /** `add_wall_goals`. */
  method AddWallGoals(world: WorldModel, walls: seq<(string, seq<DirSpec>)>) returns (out: Outcome)
    modifies world`goals
    ensures out.Pass? <==> WallGoalsOf(walls).Success?
    ensures out.Pass? ==> world.goals == old(world.goals) + WallGoalsOf(walls).value
    ensures out.Fail? ==> out.error == WallGoalsOf(walls).error
  {
    ghost var g0 := world.goals;
    var i := 0;
    assert walls[0..] == walls;
    PrependAssoc(g0, [], WallGoalsOf(walls));
    assert g0 + [] == g0;
    while i < |walls|
      invariant 0 <= i <= |walls|
      invariant Prepend(g0, WallGoalsOf(walls)) == Prepend(world.goals, WallGoalsOf(walls[i..]))
    {
      WallGoalsStep(walls[i..]);
      assert walls[i..][0] == walls[i] && walls[i..][1..] == walls[i + 1..];
      var pos := ParseKey(walls[i].0);
      if pos.Failure? {
        return Fail(pos.error);
      }
      PrependAssoc(world.goals, [WallGoal(pos.value.0, pos.value.1, walls[i].1)], WallGoalsOf(walls[i + 1..]));
      AddGoalAt(world, "wall", pos.value.0, pos.value.1, walls[i].1, "", Num(0));
      i := i + 1;
    }
    assert walls[i..] == [];
    out := Pass;
  }

  /** The object goals one key of `add_object_goals` adds, one per name. */
  function NamedGoals(x: int, y: int, items: seq<(string, Scalar)>): (gs: seq<Goal>)
    ensures |gs| == |items|
    ensures forall j :: 0 <= j < |items| ==> gs[j] == ObjectGoal(x, y, items[j].0, items[j].1)
  {
    seq(|items|, j requires 0 <= j < |items| => ObjectGoal(x, y, items[j].0, items[j].1))
  }

  /** The goals `add_object_goals` adds. Unlike `parse_objects`, it splits
      each key before looking at its names, so a bad key fails even when
      it lists none. */
  function ObjectGoalsOf(objs: seq<(string, seq<(string, Scalar)>)>): Result<seq<Goal>>
    decreases |objs|
  {
    if |objs| == 0 then Success([])
    else match ParseKey(objs[0].0)
      case Failure(e) => Failure(e)
      case Success((x, y)) => Prepend(NamedGoals(x, y, objs[0].1), ObjectGoalsOf(objs[1..]))
  }

  lemma ObjectGoalsStep(objs: seq<(string, seq<(string, Scalar)>)>)
    requires |objs| > 0
    ensures ObjectGoalsOf(objs) ==
      if ParseKey(objs[0].0).Failure? then Failure(ParseKey(objs[0].0).error)
      else Prepend(NamedGoals(ParseKey(objs[0].0).value.0, ParseKey(objs[0].0).value.1, objs[0].1), ObjectGoalsOf(objs[1..]))
  {
  }

  /** `add_object_goals` succeeds exactly when every key is a position,
      and then every listed name has its object goal at that position. */
  lemma {:induction false} ObjectGoalsMeaning(objs: seq<(string, seq<(string, Scalar)>)>)
    ensures ObjectGoalsOf(objs).Success? <==> forall i :: 0 <= i < |objs| ==> ParseKey(objs[i].0).Success?
    ensures ObjectGoalsOf(objs).Success? ==>
      forall i, j :: 0 <= i < |objs| && 0 <= j < |objs[i].1| ==>
        ObjectGoal(ParseKey(objs[i].0).value.0, ParseKey(objs[i].0).value.1, objs[i].1[j].0, objs[i].1[j].1)
          in ObjectGoalsOf(objs).value
    decreases |objs|
  {
    if |objs| > 0 {
      var rest := objs[1..];
      assert forall i :: 1 <= i < |objs| ==> objs[i] == rest[i - 1];
      ObjectGoalsMeaning(rest);
      if ObjectGoalsOf(objs).Success? {
        var (x, y) := ParseKey(objs[0].0).value;
        var here := NamedGoals(x, y, objs[0].1);
        var all := ObjectGoalsOf(objs).value;
        assert all == here + ObjectGoalsOf(rest).value;
        forall i, j | 0 <= i < |objs| && 0 <= j < |objs[i].1|
          ensures ObjectGoal(ParseKey(objs[i].0).value.0, ParseKey(objs[i].0).value.1, objs[i].1[j].0, objs[i].1[j].1) in all
        {
          if i == 0 {
            assert here[j] in all;
          } else {
            assert objs[i] == rest[i - 1];
          }
        }
      }
    }
  }

  /** The inner loop of `add_object_goals`. */
  method ObjectGoalsOfCell(world: WorldModel, x: int, y: int, items: seq<(string, Scalar)>)
    modifies world`goals
    ensures world.goals == old(world.goals) + NamedGoals(x, y, items)
  {
    var j := 0;
    while j < |items|
      invariant 0 <= j <= |items|
      invariant world.goals == old(world.goals) + NamedGoals(x, y, items[..j])
    {
      assert NamedGoals(x, y, items[..j + 1]) == NamedGoals(x, y, items[..j]) + [ObjectGoal(x, y, items[j].0, items[j].1)];
      AddGoalAt(world, "object", x, y, [], items[j].0, items[j].1);
      j := j + 1;
    }
    assert items[..j] == items;
  }

  /** `add_object_goals`. */
  method AddObjectGoals(world: WorldModel, objs: seq<(string, seq<(string, Scalar)>)>) returns (out: Outcome)
    modifies world`goals
    ensures out.Pass? <==> ObjectGoalsOf(objs).Success?
    ensures out.Pass? ==> world.goals == old(world.goals) + ObjectGoalsOf(objs).value
    ensures out.Fail? ==> out.error == ObjectGoalsOf(objs).error
  {
    ghost var g0 := world.goals;
    var i := 0;
    assert objs[0..] == objs;
    PrependAssoc(g0, [], ObjectGoalsOf(objs));
    assert g0 + [] == g0;
    while i < |objs|
      invariant 0 <= i <= |objs|
      invariant Prepend(g0, ObjectGoalsOf(objs)) == Prepend(world.goals, ObjectGoalsOf(objs[i..]))
    {
      ObjectGoalsStep(objs[i..]);
      assert objs[i..][0] == objs[i] && objs[i..][1..] == objs[i + 1..];
      var pos := ParseKey(objs[i].0);
      if pos.Failure? {
        return Fail(pos.error);
      }
      PrependAssoc(world.goals, NamedGoals(pos.value.0, pos.value.1, objs[i].1), ObjectGoalsOf(objs[i + 1..]));
      ObjectGoalsOfCell(world, pos.value.0, pos.value.1, objs[i].1);
      i := i + 1;
    }
    assert objs[i..] == [];
    out := Pass;
  }

  /** The goals `add_position_goal` adds: a goal at one of the possible
      final positions when any are listed, else the `position` record's
      goal when there is one, else none. */
  predicate PositionGoalFrom(spec: GoalSpec, added: seq<Goal>)
  {
    if |spec.finals| > 0 then
      && |added| == 1 && added[0].PositionGoal? && added[0].px.Num? && added[0].py.Num?
      && (added[0].px.n, added[0].py.n) in spec.finals
    else if spec.position.Some? then added == [PositionGoal(spec.position.value.x, spec.position.value.y)]
    else added == []
  }

  /** The case of `add_position_goal` that lays an image tile on the goal. */
  predicate HasImage(spec: GoalSpec)
  {
    |spec.finals| == 0 && spec.position.Some? && spec.position.value.image.Some?
  }

  /** `tiles` is `laid` with the background `bg` put on the cell that
      (tx, ty) reaches. */
  ghost predicate TileLaid(g: Grid, laid: seq<seq<Option<Background>>>, tx: int, ty: int, bg: Background,
                           tiles: seq<seq<Option<Background>>>)
  {
    && CellAt(g, tx, ty).Success?
    && var (cx, cy) := CellAt(g, tx, ty).value;
       && 0 <= cx - 1 < |laid| && 0 <= cy - 1 < |laid[cx - 1]|
       && tiles == laid[cx - 1 := laid[cx - 1][cy - 1 := Some(bg)]]
  }

  /** The tiles `add_position_goal` leaves on top of `laid`: unchanged
      unless the goal carries an image, which then lies on the cell of a
      drawn position. */
  ghost predicate ImageLaid(spec: GoalSpec, g: Grid, laid: seq<seq<Option<Background>>>,
                            tiles: seq<seq<Option<Background>>>)
  {
    if !HasImage(spec) then tiles == laid
    else
      var pos := spec.position.value;
      && Draws(pos.x).Success? && Draws(pos.y).Success?
      && exists tx, ty :: InPool(Draws(pos.x).value, tx) && InPool(Draws(pos.y).value, ty)
           && TileLaid(g, laid, tx, ty, Image(pos.image.value), tiles)
  }

  /** The image tile of `add_position_goal`: the coordinates are drawn
      with `parse_val`, x first, and the image is laid on that cell. */
  method GoalImage(world: WorldModel, x: Scalar, y: Scalar, image: string) returns (out: Outcome)
    requires world.Valid()
    modifies world`tiles, world`cells
    ensures world.Valid()
    ensures Draws(x).Failure? ==> out == Fail(Draws(x).error)
    ensures Draws(x).Success? && Draws(y).Failure? ==> out == Fail(Draws(y).error)
    ensures out.Fail? && Draws(x).Success? && Draws(y).Success? ==> out.error == IndexError
    ensures out.Pass? ==>
      && Draws(x).Success? && Draws(y).Success?
      && exists tx, ty :: InPool(Draws(x).value, tx) && InPool(Draws(y).value, ty)
           && TileLaid(world.Walls(), old(world.tiles), tx, ty, Image(image), world.tiles)
  {
    var tx := ParseVal(x);
    if tx.Failure? {
      return Fail(tx.error);
    }
    var ty := ParseVal(y);
    if ty.Failure? {
      return Fail(ty.error);
    }
    out := world.AddTile(tx.value, ty.value, Image(image));
    if out.Pass? {
      assert TileLaid(world.Walls(), old(world.tiles), tx.value, ty.value, Image(image), world.tiles);
    }
  }

  /** `add_position_goal`. The goal is added before the image tile is
      laid, so a failure there leaves the goal in place. */
  method AddPositionGoal(world: WorldModel, spec: GoalSpec) returns (out: Outcome)
    requires world.Valid()
    modifies world`goals, world`tiles, world`cells
    ensures world.Valid()
    ensures |world.goals| >= |old(world.goals)| && world.goals[..|old(world.goals)|] == old(world.goals)
    ensures PositionGoalFrom(spec, world.goals[|old(world.goals)|..])
    ensures !HasImage(spec) ==> out.Pass? && world.tiles == old(world.tiles)
    ensures out.Pass? ==> ImageLaid(spec, world.Walls(), old(world.tiles), world.tiles)
    ensures out.Fail? ==> HasImage(spec)
  {
    out := Pass;
    if |spec.finals| > 0 {
      assert spec.finals[0] in spec.finals;
      var p :| p in spec.finals;
      AddGoalOfKindPosition(world, Num(p.0), Num(p.1));
    } else if spec.position.Some? {
      var pos := spec.position.value;
      AddGoalOfKindPosition(world, pos.x, pos.y);
      if pos.image.Some? {
        out := GoalImage(world, pos.x, pos.y, pos.image.value);
      }
    }
  }

  /** `_add_goal('position', ...)`, which always makes its goal. */
  method AddGoalOfKindPosition(world: WorldModel, x: Scalar, y: Scalar)
    modifies world`goals
    ensures world.goals == old(world.goals) + [PositionGoal(x, y)]
  {
    var r := world.AddGoalOfKind("position", GoalAt(x, y, [], "", Num(0)));
  }

  /** The goals `parse_goals` appends to `goals0`: the position goal,
      then the wall goals, then the object goals. */
  ghost predicate Goaled(spec: GoalSpec, goals0: seq<Goal>, goals: seq<Goal>)
  {
    && WallGoalsOf(spec.walls).Success? && ObjectGoalsOf(spec.objects).Success?
    && exists added :: PositionGoalFrom(spec, added)
         && goals == goals0 + added + WallGoalsOf(spec.walls).value + ObjectGoalsOf(spec.objects).value
  }

  /** `parse_goals`: the position goal, then the wall goals, then the
      object goals. */
  method ParseGoals(world: WorldModel, spec: GoalSpec) returns (out: Outcome)
    requires world.Valid()
    modifies world`goals, world`tiles, world`cells
    ensures world.Valid()
    ensures !HasImage(spec) ==>
      (out.Pass? <==> WallGoalsOf(spec.walls).Success? && ObjectGoalsOf(spec.objects).Success?)
    ensures out.Pass? ==> Goaled(spec, old(world.goals), world.goals)
    ensures out.Pass? ==> ImageLaid(spec, world.Walls(), old(world.tiles), world.tiles)
  {
    ghost var g0 := world.goals;
    out := AddPositionGoal(world, spec);
    if out.Fail? {
      return;
    }
    ghost var added := world.goals[|g0|..];
    assert world.goals == g0 + added;
    out := AddWallGoals(world, spec.walls);
    if out.Fail? {
      return;
    }
    out := AddObjectGoals(world, spec.objects);
    if out.Pass? {
      assert PositionGoalFrom(spec, added);
    }
  }

  // ---------------------------------------------------------------------
  // parse_world

  /** What the layout half of `parse_world` leaves: a grid of the drawn
      size carrying exactly the walls the file lists, placed on the empty
      grid; the grid line colour; the tiles the file lists, laid on an
      empty tile array; the messages filed into `msgs0`. */
  ghost predicate LaidOut(cfg: Config, g: Grid, color: string, tiles: seq<seq<Option<Background>>>,
                          msgs0: map<string, string>, msgs: map<string, string>)
  {
    && cfg.rows.Some? && cfg.cols.Some?
    && Draws(cfg.rows.value).Success? && Draws(cfg.cols.value).Success?
    && (exists r :: InPool(Draws(cfg.rows.value).value, r) && g.rows == Min(r, MAX_ROWS))
    && (exists c :: InPool(Draws(cfg.cols.value).value, c) && g.cols == Min(c, MAX_COLS))
    && PlaceAll(EmptyGrid(g.rows, g.cols), cfg.walls) == Success(g)
    && color == (if cfg.gridLineColor.Some? then cfg.gridLineColor.value else "gray")
    && LayTiles(g, EmptyTiles(g.rows, g.cols), cfg.tiles) == Success(tiles)
    && PostMessages(g, msgs0, cfg.messages) == Success(msgs)
  }

  /** What the stock half of `parse_world` leaves: one robot per record
      appended, the objects stocked and the flags planted. */
  ghost predicate Stocked(cfg: Config, robots0: seq<RobotModel>, robots: seq<RobotModel>,
                          objects0: map<string, Pile>, objects: map<string, Pile>,
                          flags0: map<string, int>, flags: map<string, int>)
  {
    && |robots| >= |robots0| && robots[..|robots0|] == robots0
    && RobotsFrom(robots[|robots0|..], cfg.robots)
    && Stocks(objects0, Entries(cfg.objects), Success(objects))
    && PlantFlags(flags0, cfg.flags) == Success(flags)
  }

  /** The layout half of `parse_world`: dimensions, scene colours,
      walls, tiles and messages. */
  method ParseLayout(world: WorldModel, cfg: Config) returns (out: Outcome)
    requires world.Valid()
    modifies world`rows, world`cols, world`hwalls, world`vwalls, world`cells, world`tiles,
      world`gridLineColor, world`messages
    ensures world.Valid()
    ensures out.Pass? ==>
      LaidOut(cfg, world.Walls(), world.gridLineColor, world.tiles, old(world.messages), world.messages)
  {
    out := ParseDimensions(world, cfg.rows, cfg.cols);
    if out.Fail? {
      return;
    }
    assert world.Walls() == EmptyGrid(world.rows, world.cols);
    ParseSceneConfig(world, cfg.gridLineColor);
    out := ParseWalls(world, cfg.walls);
    if out.Fail? {
      return;
    }
    out := ParseTiles(world, cfg.tiles);
    if out.Fail? {
      return;
    }
    out := ParseMessages(world, cfg.messages);
  }

  /** The stock half of `parse_world`: robots, objects and flags, none of
      which touches the grid. */
  method ParseStock(world: WorldModel, cfg: Config) returns (out: Outcome)
    modifies world`robots, world`objects, world`flags
    ensures out.Pass? ==>
      Stocked(cfg, old(world.robots), world.robots, old(world.objects), world.objects, old(world.flags), world.flags)
  {
    ParseRobots(world, cfg.robots);
    out := ParseObjects(world, cfg.objects);
    if out.Fail? {
      return;
    }
    out := ParseFlags(world, cfg.flags);
  }

  /** The last two sections of `parse_world`: the goals, then the
      description, which is only reached when the goals parse. */
  method ParseClosing(world: WorldModel, cfg: Config) returns (out: Outcome)
    requires world.Valid()
    modifies world`cells, world`tiles, world`goals, world`description
    ensures world.Valid()
    ensures out.Pass? ==> Goaled(cfg.goal, old(world.goals), world.goals)
    ensures out.Pass? ==> ImageLaid(cfg.goal, world.Walls(), old(world.tiles), world.tiles)
    ensures out.Pass? ==> world.description == Described(cfg.description)
    ensures out.Fail? ==> world.description == old(world.description)
  {
    out := ParseGoals(world, cfg.goal);
    if out.Fail? {
      return;
    }
    ParseDescription(world, cfg.description);
  }

  /** Everything `parse_world` does after the layout: the stock, the
      goals and the description. */
  method ParseRest(world: WorldModel, cfg: Config) returns (out: Outcome)
    requires world.Valid()
    modifies world`cells, world`tiles, world`robots, world`objects, world`flags,
      world`goals, world`description
    ensures world.Valid()
    ensures out.Pass? ==>
      Stocked(cfg, old(world.robots), world.robots, old(world.objects), world.objects, old(world.flags), world.flags)
    ensures out.Pass? ==> Goaled(cfg.goal, old(world.goals), world.goals)
    ensures out.Pass? ==> ImageLaid(cfg.goal, world.Walls(), old(world.tiles), world.tiles)
    ensures out.Pass? ==> world.description == Described(cfg.description)
  {
    out := ParseStock(world, cfg);
    if out.Fail? {
      return;
    }
    out := ParseClosing(world, cfg);
  }

  /** `WorldParser.parse(world, config)`: every section in the order
      `parse_world` reads them, stopping at the first error. */
  method ParseWorld(world: WorldModel, cfg: Config) returns (out: Outcome)
    requires world.Valid()
    modifies world`rows, world`cols, world`hwalls, world`vwalls, world`cells, world`tiles,
      world`gridLineColor, world`messages, world`robots, world`objects, world`flags,
      world`goals, world`description
    ensures world.Valid()
    ensures out.Pass? ==> exists laid ::
      && LaidOut(cfg, world.Walls(), world.gridLineColor, laid, old(world.messages), world.messages)
      && ImageLaid(cfg.goal, world.Walls(), laid, world.tiles)
    ensures out.Pass? ==>
      Stocked(cfg, old(world.robots), world.robots, old(world.objects), world.objects, old(world.flags), world.flags)
    ensures out.Pass? ==> Goaled(cfg.goal, old(world.goals), world.goals)
    ensures out.Pass? ==> world.description == Described(cfg.description)
  {
    out := ParseLayout(world, cfg);
    if out.Fail? {
      return;
    }
    ghost var laid := world.tiles;
    out := ParseRest(world, cfg);
    if out.Pass? {
      assert LaidOut(cfg, world.Walls(), world.gridLineColor, laid, old(world.messages), world.messages);
    }
  }
}
