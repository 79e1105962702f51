/** The pure helpers of the browser front end, `src/models/world_model.ts`:
    the clamp of the grid size, the decoding of a wall slot into a drawing
    style, the mapping of the two wall arrays to wall shapes, the grid to
    canvas coordinates and the front end's own reading of "lo-hi" values.
    Everything that draws (Konva layers, jQuery) is left out; the box size
    `bs` and the canvas height, which the front end derives from the window
    height, are parameters. */
module View {
  import opened Common
  import opened Keys
  import opened Walls
  import Parser

  /** `MAX_ROWS` and `MAX_COLS` of the front end. */
  const VIEW_MAX_ROWS: int := 15
  const VIEW_MAX_COLS: int := 15

  /** `init`: `Math.min(MAX_ROWS, rows)` and `Math.min(MAX_COLS, cols)`.
      Each is capped at 15 and otherwise kept; nothing raises a small
      value. */
  function ClampDims(rows: int, cols: int): (d: (int, int))
    ensures d.0 <= VIEW_MAX_ROWS && d.0 <= rows && (d.0 == rows || d.0 == VIEW_MAX_ROWS)
    ensures d.1 <= VIEW_MAX_COLS && d.1 <= cols && (d.1 == cols || d.1 == VIEW_MAX_COLS)
  {
    (Min(VIEW_MAX_ROWS, rows), Min(VIEW_MAX_COLS, cols))
  }

  // ---------------------------------------------------------------------
  // draw_typed_wall

  /** `Number(n).toString(2)`: binary digits, most significant first. */
  function Binary(n: nat): (s: string)
    ensures |s| > 0
    ensures n < 2 <==> |s| == 1
  {
    if n < 2 then [BitChar(n)] else Binary(n / 2) + [BitChar(n)]
  }

  /** The binary digit of the lowest bit of `n`. */
  function BitChar(n: nat): char
  {
    if n % 2 == 1 then '1' else '0'
  }

  /** `padStart(s, 3, '0')`: zeros in front up to three characters; a
      longer string is left as it is. */
  function PadStart3(s: string): (p: string)
    ensures |p| == Max(|s|, 3)
    decreases 3 - |s|
  {
    if |s| >= 3 then s else PadStart3(['0'] + s)
  }

  /** The three entries of the front end's `walls_config`. */
  datatype WallStyle = NormalStyle | RemovableStyle | GoalStyle

  /** `draw_typed_wall`: the first three characters of the padded binary
      string are read as the goal, removable and wall bits; a wall is
      drawn removable or normal, a goal only when there is no wall, and
      a slot with neither is not drawn. */
  function TypedWallStyle(val: nat): Option<WallStyle>
  {
    var b := PadStart3(Binary(val));
    var isGoal, isRemovable, isWall := b[0] == '1', b[1] == '1', b[2] == '1';
    if isWall then
      if isRemovable then Some(RemovableStyle) else Some(NormalStyle)
    else if isGoal then Some(GoalStyle)
    else None
  }

  /** The style the bitmask calls for: the NORMAL bit decides between a
      wall and a goal, REMOVABLE between the two wall styles. */
  function StyleOfBits(val: nat): Option<WallStyle>
  {
    if HasFlag(val, NORMAL) then
      if HasFlag(val, REMOVABLE) then Some(RemovableStyle) else Some(NormalStyle)
    else if HasFlag(val, GOAL) then Some(GoalStyle)
    else None
  }

  /** On the slot values the engine stores (0..7), reading the padded
      binary string agrees with reading the bits: a wall bit takes
      precedence over the goal bit, so 5 is drawn as a normal wall. */
  lemma TypedWallDecodesBits(val: nat)
    requires val < 8
    ensures TypedWallStyle(val) == StyleOfBits(val)
  {
    PaddedBits(val);
  }

  /** The padded string of a slot value spells its three bits, goal bit
      first. */
  lemma PaddedBits(val: nat)
    requires val < 8
    ensures PadStart3(Binary(val)) == [BitChar(val / 4), BitChar(val / 2), BitChar(val)]
  {
    if val < 2 {
      PadShort([BitChar(val)]);
    } else if val < 4 {
      assert Binary(val) == [BitChar(val / 2)] + [BitChar(val)];
      PadShort(Binary(val));
    } else {
      assert Binary(val / 2) == [BitChar(val / 4)] + [BitChar(val / 2)];
    }
  }

  lemma PadShort(s: string)
    ensures |s| == 1 ==> PadStart3(s) == ['0', '0', s[0]]
    ensures |s| == 2 ==> PadStart3(s) == ['0', s[0], s[1]]
  {
    if |s| == 1 {
      assert PadStart3(['0'] + s) == PadStart3(['0'] + (['0'] + s));
      assert ['0'] + (['0'] + s) == ['0', '0', s[0]];
    } else if |s| == 2 {
      assert ['0'] + s == ['0', s[0], s[1]];
    }
  }

  /** Each kind of wall `Cell.add_wall` writes is drawn in its own style. */
  lemma KindIsDrawnInItsStyle(k: WallKind)
    ensures TypedWallStyle(KindValue(k)) ==
      match k
      case Normal => Some(NormalStyle)
      case Removable => Some(RemovableStyle)
      case GoalWall => Some(GoalStyle)
  {
    TypedWallDecodesBits(KindValue(k));
  }

  // ---------------------------------------------------------------------
  // draw_walls

  /** What `draw_walls` does for one slot: a non-zero slot is drawn with
      `draw_typed_wall`, a zero slot is removed. */
  datatype WallDraw = Typed(i: int, j: int, dir: string, val: int) | Removed(i: int, j: int, dir: string)

  function SlotDraw(i: int, j: int, dir: string, val: int): WallDraw
  {
    if val != 0 then Typed(i, j, dir, val) else Removed(i, j, dir)
  }

  /** The inner `forEach` over row `i` of an array, from column `j0`. */
  function RowDraws(row: seq<int>, i: int, j0: int, dir: string): (ds: seq<WallDraw>)
    ensures |ds| == |row|
    ensures forall j :: 0 <= j < |row| ==> ds[j] == SlotDraw(i, j0 + j, dir, row[j])
  {
    if |row| == 0 then []
    else [SlotDraw(i, j0, dir, row[0])] + RowDraws(row[1..], i, j0 + 1, dir)
  }

  /** The outer `forEach` over the rows of an array, from row `i0`. */
  function ArrayDraws(a: seq<seq<int>>, i0: int, dir: string): seq<WallDraw>
  {
    if |a| == 0 then []
    else RowDraws(a[0], i0, 0, dir) + ArrayDraws(a[1..], i0 + 1, dir)
  }

  /** `draw_walls`: every slot of `hwalls` as a north wall, then every
      slot of `vwalls` as an east wall. */
  function DrawWalls(hwalls: seq<seq<int>>, vwalls: seq<seq<int>>): seq<WallDraw>
  {
    ArrayDraws(hwalls, 0, "north") + ArrayDraws(vwalls, 0, "east")
  }

  /** Every draw of an array stands for one of its slots, with that
      slot's value. */
  lemma {:induction false} ArrayDrawsSound(a: seq<seq<int>>, i0: int, dir: string)
    ensures forall d | d in ArrayDraws(a, i0, dir) ::
      && d.dir == dir && i0 <= d.i < i0 + |a| && 0 <= d.j < |a[d.i - i0]|
      && d == SlotDraw(d.i, d.j, dir, a[d.i - i0][d.j])
  {
    if |a| > 0 {
      ArrayDrawsSound(a[1..], i0 + 1, dir);
      var row := RowDraws(a[0], i0, 0, dir);
      forall d | d in ArrayDraws(a, i0, dir)
        ensures && d.dir == dir && i0 <= d.i < i0 + |a| && 0 <= d.j < |a[d.i - i0]|
                && d == SlotDraw(d.i, d.j, dir, a[d.i - i0][d.j])
      {
        if d in row {
          var j :| 0 <= j < |row| && row[j] == d;
          assert d == SlotDraw(i0, j, dir, a[0][j]);
        } else {
          assert d in ArrayDraws(a[1..], i0 + 1, dir);
          assert a[1..][d.i - (i0 + 1)] == a[d.i - i0];
        }
      }
    }
  }

  /** Every slot of an array has its draw. */
  lemma {:induction false} ArrayDrawsComplete(a: seq<seq<int>>, i0: int, dir: string, i: int, j: int)
    requires 0 <= i < |a| && 0 <= j < |a[i]|
    ensures SlotDraw(i0 + i, j, dir, a[i][j]) in ArrayDraws(a, i0, dir)
  {
    if i == 0 {
      var row := RowDraws(a[0], i0, 0, dir);
      assert row[j] == SlotDraw(i0, j, dir, a[0][j]);
    } else {
      ArrayDrawsComplete(a[1..], i0 + 1, dir, i - 1, j);
      assert a[1..][i - 1] == a[i];
    }
  }

  /** The front end draws each cell's north and east slots on that same
      cell (the slot a cell's north and east walls live in is addressed by
      the cell itself), with the value the engine stored; and it draws
      nothing that is not a slot of one of the two arrays. */
  lemma DrawWallsShowsSlots(g: Grid, x: int, y: int)
    requires WellFormed(g) && InGrid(g, x, y)
    ensures SlotDraw(x, y, "north", Slot(g, x, y, North)) in DrawWalls(g.hwalls, g.vwalls)
    ensures SlotDraw(x, y, "east", Slot(g, x, y, East)) in DrawWalls(g.hwalls, g.vwalls)
  {
    ArrayDrawsComplete(g.hwalls, 0, "north", x, y);
    ArrayDrawsComplete(g.vwalls, 0, "east", x, y);
  }

  lemma DrawWallsOnlySlots(hwalls: seq<seq<int>>, vwalls: seq<seq<int>>)
    ensures forall d | d in DrawWalls(hwalls, vwalls) ::
      if d.dir == "north" then
        0 <= d.i < |hwalls| && 0 <= d.j < |hwalls[d.i]| && d == SlotDraw(d.i, d.j, "north", hwalls[d.i][d.j])
      else
        d.dir == "east" && 0 <= d.i < |vwalls| && 0 <= d.j < |vwalls[d.i]| && d == SlotDraw(d.i, d.j, "east", vwalls[d.i][d.j])
  {
    ArrayDrawsSound(hwalls, 0, "north");
    ArrayDrawsSound(vwalls, 0, "east");
  }

  /** A wall that blocks the robot is drawn as a wall (normal or
      removable); a slot holding only the goal bit is drawn as a goal. */
  lemma BlockingWallIsDrawnAsWall(g: Grid, x: int, y: int, d: Direction)
    requires WellFormed(g) && InGrid(g, x, y) && (d == North || d == East)
    ensures var v := Slot(g, x, y, d);
      && SlotDraw(x, y, UiDirection(d), v) in DrawWalls(g.hwalls, g.vwalls)
      && (HasWall(g, x, y, d) <==> TypedWallStyle(v) in {Some(NormalStyle), Some(RemovableStyle)})
  {
    DrawWallsShowsSlots(g, x, y);
    TypedWallDecodesBits(Slot(g, x, y, d));
  }

  // ---------------------------------------------------------------------
  // point2cxy, draw_wall, remove_wall

  /** `point2cxy`: the canvas corner of cell (x, y), with y growing
      downwards on the canvas. */
  function Point2Cxy(x: int, y: int, bs: int, height: int): (int, int)
  {
    ((x - 1) * bs, height - (y - 1) * bs)
  }

  lemma {:induction false} MulCancel(a: int, b: int, bs: int)
    requires bs > 0 && a * bs == b * bs
    ensures a == b
  {
  }


  /** For a positive box size no two cells share a canvas corner. */
  lemma Point2CxyInjective(x1: int, y1: int, x2: int, y2: int, bs: int, height: int)
    requires bs > 0
    ensures Point2Cxy(x1, y1, bs, height) == Point2Cxy(x2, y2, bs, height) <==> x1 == x2 && y1 == y2
  {
    if Point2Cxy(x1, y1, bs, height) == Point2Cxy(x2, y2, bs, height) {
      MulCancel(x1 - 1, x2 - 1, bs);
      MulCancel(y1 - 1, y2 - 1, bs);
    }
  }

  /** A line `draw_wall` adds to the layer: its shape name and its two end
      points as [x1, y1, x2, y2]. */
  datatype Shape = Line(name: string, points: seq<int>)

  /** `draw_wall`: east walls along the right edge of the box, north walls
      along its top edge; any other direction draws nothing. */
  function DrawWall(x: int, y: int, dir: string, bs: int, height: int): Option<Shape>
  {
    var (cx, cy) := Point2Cxy(x, y, bs, height);
    if dir == "east" then
      Some(Line("vwall-" + IntToString(x) + "-" + IntToString(y), [cx + bs, cy - bs, cx + bs, cy]))
    else if dir == "north" then
      Some(Line("hwall-" + IntToString(x) + "-" + IntToString(y), [cx, cy - bs, cx + bs, cy - bs]))
    else None
  }

  /** `remove_wall`: the name of the shape it looks up and destroys, and
      nothing for a direction other than north or east. */
  function RemoveWall(x: int, y: int, dir: string): Option<string>
  {
    if dir != "north" && dir != "east" then None
    else Some((if dir == "north" then "hwall" else "vwall") + "-" + IntToString(x) + "-" + IntToString(y))
  }

  /** `remove_wall` looks up exactly the shape `draw_wall` made for the
      same cell and direction, and nothing for a direction it does not
      draw. */
  lemma RemoveFindsDrawn(x: int, y: int, dir: string, bs: int, height: int)
    ensures RemoveWall(x, y, dir).Some? <==> DrawWall(x, y, dir, bs, height).Some?
    ensures RemoveWall(x, y, dir).Some? ==> RemoveWall(x, y, dir).value == DrawWall(x, y, dir, bs, height).value.name
  {
  }

  /** An east wall is drawn on the left edge of the next cell east, a
      north wall on the bottom edge of the next cell north: the line sits
      on the border the two cells share. */
  lemma WallOnSharedEdge(x: int, y: int, bs: int, height: int)
    ensures DrawWall(x, y, "east", bs, height).value.points[0] == Point2Cxy(x + 1, y, bs, height).0
    ensures DrawWall(x, y, "north", bs, height).value.points[1] == Point2Cxy(x, y + 1, bs, height).1
  {
  }

  /** The "x-y" part of a shape name, for array indices. */
  lemma {:induction false} CoordsInjective(x1: nat, y1: nat, x2: nat, y2: nat)
    requires NatDigits(x1) + "-" + NatDigits(y1) == NatDigits(x2) + "-" + NatDigits(y2)
    ensures x1 == x2 && y1 == y2
  {
    Parser.DashSplit(x1, y1);
    Parser.DashSplit(x2, y2);
    DigitsRoundTrip(x1);
    DigitsRoundTrip(x2);
    DigitsRoundTrip(y1);
    DigitsRoundTrip(y2);
  }

  /** Distinct wall slots of the arrays get distinct shape names, so the
      lookup in `remove_wall` finds the wall of its own slot. */
  lemma ShapeNamesDistinct(x1: nat, y1: nat, dir1: string, x2: nat, y2: nat, dir2: string)
    requires dir1 in {"north", "east"} && dir2 in {"north", "east"}
    ensures RemoveWall(x1, y1, dir1) == RemoveWall(x2, y2, dir2) <==> x1 == x2 && y1 == y2 && dir1 == dir2
  {
    var n1, n2 := RemoveWall(x1, y1, dir1).value, RemoveWall(x2, y2, dir2).value;
    var k1 := if dir1 == "north" then "hwall" else "vwall";
    var k2 := if dir2 == "north" then "hwall" else "vwall";
    SuffixAfter(k1 + "-", NatDigits(x1), "-", NatDigits(y1));
    SuffixAfter(k2 + "-", NatDigits(x2), "-", NatDigits(y2));
    if n1 == n2 {
      assert k1[0] == n1[0] == n2[0] == k2[0];
      CoordsInjective(x1, y1, x2, y2);
    }
  }

  lemma SuffixAfter(a: string, b: string, c: string, d: string)
    ensures (a + b + c + d)[|a|..] == b + c + d
  {
    assert a + b + c + d == a + (b + c + d);
  }


  // ---------------------------------------------------------------------
  // parse_value

  /** A configuration value as the front end receives it: a number, a
      string, or nothing (`null`/`undefined`). */
  datatype JsValue = JsNum(n: int) | JsStr(s: string) | JsNone

  /** JavaScript's falsy values among these: 0, the empty string and
      nothing. A non-empty string, even "0", is truthy. */
  predicate Falsy(v: JsValue)
  {
    v == JsNum(0) || v == JsStr("") || v.JsNone?
  }

  /** The leading run of decimal digits of `s`. */
  function DigitPrefix(s: string): (p: string)
    ensures AllDigits(p) && |p| <= |s| && p == s[..|p|]
    ensures |p| < |s| ==> !IsDigit(s[|p|])
  {
    if |s| == 0 || !IsDigit(s[0]) then [] else [s[0]] + DigitPrefix(s[1..])
  }

  /** JavaScript's `parseInt(s)` on decimal text: an optional sign, then
      the leading digits, the rest ignored; `None` stands for NaN. */
  function JsParseInt(s: string): Option<int>
  {
    var signed := |s| > 0 && (s[0] == '+' || s[0] == '-');
    var p := DigitPrefix(if signed then s[1..] else s);
    if |p| == 0 then None
    else if signed && s[0] == '-' then Some(0 - DigitsValue(p) as int)
    else Some(DigitsValue(p))
  }

  lemma {:induction false} DigitPrefixOf(a: string, rest: string)
    requires AllDigits(a)
    requires |rest| == 0 || !IsDigit(rest[0])
    ensures DigitPrefix(a + rest) == a
  {
    if |a| > 0 {
      assert (a + rest)[1..] == a[1..] + rest;
      DigitPrefixOf(a[1..], rest);
      assert [a[0]] + a[1..] == a;
    } else {
      assert a + rest == rest;
    }
  }

  /** `parseInt` reads a number's digits and stops at the first
      character that is not a digit. */
  lemma JsParseIntPrefix(n: nat, rest: string)
    requires |rest| == 0 || !IsDigit(rest[0])
    ensures JsParseInt(NatDigits(n) + rest) == Some(n)
  {
    DigitPrefixOf(NatDigits(n), rest);
    assert (NatDigits(n) + rest)[0] == NatDigits(n)[0];
    DigitsRoundTrip(n);
  }

  /** lodash's `toFinite` on a `parseInt` result: NaN becomes 0. */
  function ToFinite(o: Option<int>): int
  {
    if o.Some? then o.value else 0
  }

  /** The values `parse_value(v)` may return: 0 for a falsy value, a
      number as it is, and for a string the range `_random` draws from.
      The string is split at '-' and the first two pieces are read with
      `parseInt`; `_random(a)` with a single bound draws between 0 and
      `a`, and reversed bounds are swapped. */
  function ValueDraws(v: JsValue): (p: Parser.Pool)
    ensures Parser.NonEmpty(p)
    ensures Falsy(v) ==> p == Parser.OneOf([0])
    ensures v.JsNum? ==> p == Parser.OneOf([v.n])
  {
    match v
    case JsNone => Parser.OneOf([0])
    case JsNum(n) => Parser.OneOf([n])
    case JsStr(s) =>
      if s == "" then Parser.OneOf([0])
      else
        var parts := Split(s, '-');
        var lower := ToFinite(JsParseInt(parts[0]));
        if |parts| == 1 then Parser.Span(Min(0, lower), Max(0, lower))
        else
          var upper := ToFinite(JsParseInt(parts[1]));
          Parser.Span(Min(lower, upper), Max(lower, upper))
  }

  /** "a-b" draws every number between a and b, in either order. */
  lemma RangeTextDraws(a: nat, b: nat)
    ensures ValueDraws(JsStr(NatDigits(a) + "-" + NatDigits(b))) == Parser.Span(Min(a, b), Max(a, b))
  {
    Parser.DashSplit(a, b);
    JsParseIntPrefix(a, "");
    JsParseIntPrefix(b, "");
    assert NatDigits(a) + "" == NatDigits(a);
    assert NatDigits(b) + "" == NatDigits(b);
  }

  /** For a range in order the front end and `parse_val` of the Python
      parser draw from the same numbers; for a reversed range the Python
      parser raises ValueError while the front end swaps the bounds. */
  lemma RangeAgreesWithParser(a: nat, b: nat)
    ensures var t := NatDigits(a) + "-" + NatDigits(b);
      if a <= b then Parser.Draws(Text(t)) == Success(ValueDraws(JsStr(t)))
      else Parser.Draws(Text(t)).Failure? && ValueDraws(JsStr(t)) == Parser.Span(b, a)
  {
    RangeTextDraws(a, b);
    Parser.RangeDraws(a, b);
  }

  /** A string without a dash is a single bound: the front end draws
      between 0 and its number, where the Python parser returns the
      number itself. */
  lemma PlainTextDrawsFromZero(n: nat)
    ensures ValueDraws(JsStr(NatDigits(n))) == Parser.Span(0, n)
    ensures Parser.Draws(Text(NatDigits(n))) == Success(Parser.OneOf([n]))
  {
    Parser.NoDash(n);
    JsParseIntPrefix(n, "");
    assert NatDigits(n) + "" == NatDigits(n);
    Parser.PlainTextDraws(n);
  }

  /** "-n" has an empty first piece, which `parseInt` reads as NaN and
      lodash as 0: the front end draws between 0 and n, where the Python
      parser raises ValueError. */
  lemma LeadingDashDrawsFromZero(n: nat)
    ensures ValueDraws(JsStr("-" + NatDigits(n))) == Parser.Span(0, n)
    ensures Parser.Draws(Text("-" + NatDigits(n))) == Failure(ValueError)
  {
    var b := NatDigits(n);
    Parser.NoDash(n);
    SplitAtFirst("", '-', b);
    assert "-" + b == "" + ['-'] + b;
    assert Split("-" + b, '-') == ["", b];
    JsParseIntPrefix(n, "");
    assert b + "" == b;
    Parser.NegativeTextRefused(n);
  }
}
