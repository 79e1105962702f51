/** The bookkeeping behind `Robot.take` and `Robot.put` in `ottopy/robot.py`.
    Three tables take part: the world's object table (`"x,y"` to the pile
    lying there), the robot's tallies (`collections`: for each origin key,
    how many of each name it has taken from there) and its pick ledger
    (`last_picked`: one `(name, origin key)` entry per object carried, in
    the order taken). A pile is never shrunk by a take: what the robot may
    still take from a cell is the pile's count minus its tally there. */
module Ledger {
  import opened Common
  import opened Keys
  import opened Walls
  import opened Goals

  /** `collections`: origin key to name to number taken. */
  type Tallies = map<string, map<string, int>>

  /** `last_picked`: `(name, origin key)` entries, oldest first. */
  type Picks = seq<(string, string)>

  /** The three tables together. */
  datatype Hold = Hold(objects: map<string, Pile>, tallies: Tallies, picks: Picks)

  /** How often `e` occurs in `s`. */
  function Count<T(==)>(s: seq<T>, e: T): nat
  {
    if |s| == 0 then 0 else Count(s[..|s| - 1], e) + (if s[|s| - 1] == e then 1 else 0)
  }

  lemma CountPush<T>(s: seq<T>, x: T, e: T)
    ensures Count(s + [x], e) == Count(s, e) + (if x == e then 1 else 0)
  {
    assert (s + [x])[..|s|] == s;
  }

  /** `collections.get(k, {}).get(name, 0)`. */
  function Tally(c: Tallies, k: string, name: string): int
  {
    if k in c && name in c[k] then c[k][name] else 0
  }

  /** The tallies count the ledger: every tally equals the number of ledger
      entries for that name and origin, and no tally is kept at zero. */
  ghost predicate Consistent(c: Tallies, picks: Picks)
  {
    && (forall k, name :: Tally(c, k, name) == Count(picks, (name, k)))
    && (forall k, name :: k in c && name in c[k] ==> c[k][name] > 0)
  }

  /** What is left to take on cell `k`: the pile's count less the robot's
      tally for that name there. */
  function Visible(h: Hold, k: string): int
  {
    if k in h.objects then h.objects[k].count - Tally(h.tallies, k, h.objects[k].name) else 0
  }

  /** `Robot.on_object` (without its instruction charge): a pile lies on
      `k`, of the requested name if one is given, and the robot's tallies
      for `k` are not exactly `{name: count}`. */
  predicate Pickable(h: Hold, k: string, objType: Option<string>)
  {
    && k in h.objects
    && (objType.None? || h.objects[k].name == objType.value)
    && (k !in h.tallies || h.tallies[k] != map[h.objects[k].name := h.objects[k].count])
  }

  /** `Robot.object_here` (without its instruction charge): the name of
      the pile on `k`, unless the robot's tally for that name there equals
      the pile's count. */
  function NameHere(h: Hold, k: string): (r: Option<string>)
    ensures r.Some? ==> k in h.objects && r.value == h.objects[k].name
  {
    if k !in h.objects then None
    else
      var p := h.objects[k];
      if k in h.tallies && p.name in h.tallies[k] && h.tallies[k][p.name] == p.count then None
      else Some(p.name)
  }

  /** While the robot has taken nothing but the pile's own name from `k`,
      `object_here` and `on_object` agree on whether there is something
      to take. */
  lemma NameHereAgreesWithPickable(h: Hold, k: string)
    requires k in h.objects && h.objects[k].count != 0
    requires k in h.tallies ==> h.tallies[k].Keys <= {h.objects[k].name}
    ensures NameHere(h, k).Some? <==> Pickable(h, k, None)
  {
    var p := h.objects[k];
    if k in h.tallies && p.name in h.tallies[k] && h.tallies[k][p.name] == p.count {
      assert h.tallies[k] == map[p.name := p.count];
    }
  }

  /** When the tallies for `k` also hold another name, the two disagree:
      `object_here` reports nothing left while `on_object` still allows a
      take. */
  lemma NameHereDisagreesWithPickable(k: string)
    ensures var h := Hold(map[k := Pile("banana", 1)], map[k := map["apple" := 1, "banana" := 1]], []);
            NameHere(h, k) == None && Pickable(h, k, None)
  {
    var h := Hold(map[k := Pile("banana", 1)], map[k := map["apple" := 1, "banana" := 1]], []);
    assert "apple" in h.tallies[k] && "apple" !in map["banana" := 1];
  }

  /** The effect of a take on cell `k` that `on_object` allowed: the tally
      for the pile's name there goes up by one, the ledger records the
      pick, and the pile is deleted once the tally reaches its count. */
  function Take(h: Hold, k: string): (h': Hold)
    requires k in h.objects
    ensures h'.picks == h.picks + [(h.objects[k].name, k)]
    ensures Tally(h'.tallies, k, h.objects[k].name) == Tally(h.tallies, k, h.objects[k].name) + 1
    ensures forall k', n' :: (k', n') != (k, h.objects[k].name) ==> Tally(h'.tallies, k', n') == Tally(h.tallies, k', n')
    ensures h'.objects == if Tally(h'.tallies, k, h.objects[k].name) == h.objects[k].count then h.objects - {k} else h.objects
  {
    var p := h.objects[k];
    var coll := if k in h.tallies then h.tallies[k] else map[];
    var picked := Tally(h.tallies, k, p.name) + 1;
    Hold(if p.count == picked then h.objects - {k} else h.objects,
         h.tallies[k := coll[p.name := picked]],
         h.picks + [(p.name, k)])
  }

  /** The effect of a put on cell `k` with a non-empty ledger: the last
      entry is popped; when its origin still holds a tally for that name,
      the tally goes down by one (and disappears at zero) and the pile on
      `k` becomes that name with one more than was there of it. */
  function Put(h: Hold, k: string): (h': Hold)
    requires |h.picks| > 0
    ensures h'.picks == h.picks[..|h.picks| - 1]
  {
    var (name, origin) := h.picks[|h.picks| - 1];
    var picks := h.picks[..|h.picks| - 1];
    if origin in h.tallies && name in h.tallies[origin] then
      var coll := h.tallies[origin];
      var coll' := if coll[name] > 1 then coll[name := coll[name] - 1] else coll - {name};
      var here := if k in h.objects && h.objects[k].name == name then h.objects[k].count else 0;
      Hold(h.objects[k := Pile(name, here + 1)], h.tallies[origin := coll'], picks)
    else
      Hold(h.objects, h.tallies, picks)
  }

  /** The object table after a put, spelled out for callers that build it
      in steps. */
  lemma PutObjects(h: Hold, k: string, name: string, origin: string)
    requires |h.picks| > 0 && h.picks[|h.picks| - 1] == (name, origin)
    ensures origin in h.tallies && name in h.tallies[origin] ==>
      Put(h, k).objects ==
        h.objects[k := Pile(name, (if k in h.objects && h.objects[k].name == name then h.objects[k].count else 0) + 1)]
    ensures !(origin in h.tallies && name in h.tallies[origin]) ==> Put(h, k).objects == h.objects
  {
  }

  /** A take keeps the tallies in step with the ledger. */
  lemma TakeConsistent(h: Hold, k: string)
    requires k in h.objects && Consistent(h.tallies, h.picks)
    requires Tally(h.tallies, k, h.objects[k].name) >= 0
    ensures Consistent(Take(h, k).tallies, Take(h, k).picks)
  {
    var h' := Take(h, k);
    forall k', n'
      ensures Tally(h'.tallies, k', n') == Count(h'.picks, (n', k'))
    {
      CountPush(h.picks, (h.objects[k].name, k), (n', k'));
    }
  }

  /** With consistent tables the last ledger entry always has its tally,
      so a put takes the branch that returns the object; it keeps the
      tables consistent, lowers that tally by one and leaves the others. */
  lemma PutConsistent(h: Hold, k: string)
    requires |h.picks| > 0 && Consistent(h.tallies, h.picks)
    ensures var (name, origin) := h.picks[|h.picks| - 1];
            && origin in h.tallies && name in h.tallies[origin]
            && Put(h, k).objects == h.objects[k := Pile(name, (if k in h.objects && h.objects[k].name == name then h.objects[k].count else 0) + 1)]
            && Tally(Put(h, k).tallies, origin, name) == Tally(h.tallies, origin, name) - 1
            && (forall k', n' :: (k', n') != (origin, name) ==> Tally(Put(h, k).tallies, k', n') == Tally(h.tallies, k', n'))
            && Consistent(Put(h, k).tallies, Put(h, k).picks)
  {
    var (name, origin) := h.picks[|h.picks| - 1];
    assert Count(h.picks, (name, origin)) >= 1;
    assert Tally(h.tallies, origin, name) >= 1;
    var h' := Put(h, k);
    forall k', n'
      ensures Tally(h'.tallies, k', n') == Count(h'.picks, (n', k'))
    {
      assert Count(h.picks, (n', k')) == Count(h'.picks, (n', k')) + (if (name, origin) == (n', k') then 1 else 0);
    }
  }

  /** After a take on the cell of an object goal, of the name lying
      there, the goal holds exactly when its value is the new tally: one
      more than the robot had taken of that name there before. */
  lemma ObjectGoalAfterTake(h: Hold, goal: Goal, bot: BotView, world: WorldView)
    requires WellFormed(world.grid) && goal.ObjectGoal?
    requires PosKey(goal.ox, goal.oy) in h.objects && h.objects[PosKey(goal.ox, goal.oy)].name == goal.objName
    requires bot.collections == Take(h, PosKey(goal.ox, goal.oy)).tallies
    ensures IsCompleted(goal, bot, world) ==
      Success(goal.val == Num(Tally(h.tallies, PosKey(goal.ox, goal.oy), goal.objName) + 1))
  {
  }

  /** After a put on the cell of a drop goal that returns an object of the
      goal's name, the goal holds exactly when its value is the new pile:
      one more than lay there of that name before. */
  lemma DropGoalAfterPut(h: Hold, goal: Goal, bot: BotView, world: WorldView)
    requires WellFormed(world.grid) && goal.DropGoal?
    requires |h.picks| > 0 && Consistent(h.tallies, h.picks) && h.picks[|h.picks| - 1].0 == goal.dropName
    requires world.objects == Put(h, PosKey(goal.dx, goal.dy)).objects
    ensures var k := PosKey(goal.dx, goal.dy);
            var before := if k in h.objects && h.objects[k].name == goal.dropName then h.objects[k].count else 0;
            IsCompleted(goal, bot, world) == Success(goal.dropVal == Num(before + 1))
  {
    PutConsistent(h, PosKey(goal.dx, goal.dy));
  }

  /** Taking a single object that the robot has not taken from before and
      putting it straight back leaves the object table and every tally as
      they were, and the ledger as it was. */
  lemma {:induction false} TakeThenPutRestores(h: Hold, k: string)
    requires Consistent(h.tallies, h.picks)
    requires k in h.objects && h.objects[k].count == 1 && Tally(h.tallies, k, h.objects[k].name) == 0
    ensures Put(Take(h, k), k).objects == h.objects
    ensures Put(Take(h, k), k).picks == h.picks
    ensures forall k', n' :: Tally(Put(Take(h, k), k).tallies, k', n') == Tally(h.tallies, k', n')
  {
    var h1 := Take(h, k);
    TakeConsistent(h, k);
    PutConsistent(h1, k);
    assert h1.picks[..|h1.picks| - 1] == h.picks;
  }

  /** The same round trip on a pile of several objects does not restore it:
      the pile grows by one while the tally falls back to where it was, so
      one more object is left to take than before. */
  lemma {:induction false} TakeThenPutOnLargerPile(h: Hold, k: string)
    requires Consistent(h.tallies, h.picks)
    requires k in h.objects && h.objects[k].count > Tally(h.tallies, k, h.objects[k].name) + 1
    requires Tally(h.tallies, k, h.objects[k].name) >= 0
    ensures Put(Take(h, k), k).objects == h.objects[k := Pile(h.objects[k].name, h.objects[k].count + 1)]
    ensures Visible(Put(Take(h, k), k), k) == Visible(h, k) + 1
  {
    var h1 := Take(h, k);
    TakeConsistent(h, k);
    PutConsistent(h1, k);
  }

  // ---------------------------------------------------------------------
  // The take that never drains a pile.

  /** `n` takes in a row on cell `k`, each allowed by `on_object`. */
  function Takes(h: Hold, k: string, n: nat): Hold
    decreases n
  {
    if n == 0 || !Pickable(h, k, None) then h else Takes(Take(h, k), k, n - 1)
  }

  /** As written: once the robot's tally on a cell exceeds the pile's
      count there, `on_object` keeps allowing takes, and no take removes
      the pile, so every number of takes succeeds and the ledger grows by
      one each time. */
  lemma {:induction false} OverdrawnPileNeverDrains(h: Hold, k: string, n: nat)
    requires k in h.objects && Tally(h.tallies, k, h.objects[k].name) > h.objects[k].count
    ensures Pickable(Takes(h, k, n), k, None)
    ensures Takes(h, k, n).objects == h.objects
    ensures |Takes(h, k, n).picks| == |h.picks| + n
    decreases n
  {
    var p := h.objects[k];
    assert k in h.tallies && p.name in h.tallies[k] ==> h.tallies[k][p.name] != map[p.name := p.count][p.name];
    assert p.name in map[p.name := p.count];
    if n > 0 {
      OverdrawnPileNeverDrains(Take(h, k), k, n - 1);
    }
  }

  /** A concrete run that reaches an overdrawn cell: two apples lie on
      `a` and one on `b`; the robot takes both on `a`, takes the one on
      `b` and puts it down on `a`. `a` then shows a pile of one apple
      against a tally of two. */
  lemma OverdrawnIsReachable(a: string, b: string)
    requires a != b
    ensures var h0 := Hold(map[a := Pile("apple", 2), b := Pile("apple", 1)], map[], []);
            var h1 := Take(Take(h0, a), a);
            var h2 := Take(h1, b);
            && Pickable(h0, a, None) && Pickable(Take(h0, a), a, None) && Pickable(h1, b, None)
            && a in Put(h2, a).objects
            && Tally(Put(h2, a).tallies, a, "apple") > Put(h2, a).objects[a].count
  {
    var h0 := Hold(map[a := Pile("apple", 2), b := Pile("apple", 1)], map[], []);
    var h1 := Take(Take(h0, a), a);
    assert Take(h0, a).tallies[a] == map["apple" := 1];
    assert h1.objects == map[b := Pile("apple", 1)];
    assert h1.tallies[a] == map["apple" := 2];
    var h2 := Take(h1, b);
    assert h2.picks[|h2.picks| - 1] == ("apple", b);
    assert Put(h2, a).objects[a] == Pile("apple", 1);
  }

  /** The evident intent of `on_object`: something is left to take, that
      is, the tally is below the pile's count. */
  predicate PickableIntended(h: Hold, k: string, objType: Option<string>)
  {
    k in h.objects && (objType.None? || h.objects[k].name == objType.value) && Visible(h, k) > 0
  }

  /** Under the intended test each take lowers what is left by one, so a
      run of takes on one cell stops after at most what was left there. */
  lemma {:induction false} IntendedTakesAreBounded(h: Hold, k: string, n: nat)
    requires forall i :: 0 <= i < n ==> PickableIntended(TakesIntended(h, k, i), k, None)
    ensures n <= Visible(h, k) || n == 0
    decreases n
  {
    if n > 0 {
      assert PickableIntended(TakesIntended(h, k, 0), k, None);
      var h1 := Take(h, k);
      assert Visible(h1, k) == Visible(h, k) - 1;
      forall i | 0 <= i < n - 1
        ensures PickableIntended(TakesIntended(h1, k, i), k, None)
      {
        assert TakesIntended(h, k, i + 1) == TakesIntended(h1, k, i);
        assert PickableIntended(TakesIntended(h, k, i + 1), k, None);
      }
      IntendedTakesAreBounded(h1, k, n - 1);
    }
  }

  /** `n` takes in a row on cell `k` under the intended test. */
  function TakesIntended(h: Hold, k: string, n: nat): Hold
    decreases n
  {
    if n == 0 || !PickableIntended(h, k, None) then h else TakesIntended(Take(h, k), k, n - 1)
  }
}
