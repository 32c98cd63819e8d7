/**
  The greedy line assignment is a maximum matching of room lines to free rooms.
 */
module Matching {
  import opened Wrappers
  import opened Hotel
  import opened Collections

  /** How many of the lines ask for `category`. */
  function Count(lines: seq<Line>, category: string): nat {
    if lines == [] then 0
    else Count(lines[..|lines| - 1], category) + if lines[|lines| - 1].roomType == category then 1 else 0
  }

  function At(ids: seq<int>, k: nat): Option<int> {
    if k < |ids| then Some(ids[k]) else None
  }

  predicate AllUnassigned(lines: seq<Line>) {
    forall i :: 0 <= i < |lines| ==> lines[i].assignedRoom.None?
  }

  // ---- The i-th line of a category gets the i-th free room --------------------

  lemma {:induction false} CountTail(lines: seq<Line>, category: string)
    requires lines != []
    ensures Count(lines, category) == Count(lines[1..], category) + if lines[0].roomType == category then 1 else 0
  {
    if |lines| > 1 {
      var front := lines[..|lines| - 1];
      CountTail(front, category);
      assert front[1..] == lines[1..][..|lines| - 2];
    }
  }

  /** Taking the first free room of its category leaves the others, in order. */
  lemma {:induction false} TakeFirst(rooms: seq<Room>, category: string, taken: set<int>)
    requires DistinctRooms(rooms)
    requires FreeRooms(rooms, category, taken) != []
    ensures var free := FreeRooms(rooms, category, taken);
      FreeRooms(rooms, category, taken + {free[0]}) == free[1..]
  {
    var rest := rooms[1..];
    var id := FreeRooms(rooms, category, taken)[0];
    assert DistinctRooms(rest) by { DistinctTail(rooms); }
    if Fits(rooms[0], category, taken) {
      forall i | 0 <= i < |rest| ensures rest[i].id != id { assert rest[i] == rooms[i + 1]; }
      TakeForeign(rest, category, taken, id);
    } else {
      TakeFirst(rest, category, taken);
    }
  }

  lemma DistinctTail(rooms: seq<Room>)
    requires DistinctRooms(rooms) && rooms != []
    ensures DistinctRooms(rooms[1..])
  {
    forall i, j | 0 <= i < j < |rooms[1..]| ensures rooms[1..][i].id != rooms[1..][j].id {
      assert rooms[1..][i] == rooms[i + 1] && rooms[1..][j] == rooms[j + 1];
    }
  }

  /** Taking an id that no room of the category has changes nothing for that category. */
  lemma {:induction false} TakeForeign(rooms: seq<Room>, category: string, taken: set<int>, id: int)
    requires forall i :: 0 <= i < |rooms| && rooms[i].id == id ==> rooms[i].category != category
    ensures FreeRooms(rooms, category, taken + {id}) == FreeRooms(rooms, category, taken)
  {
    if rooms != [] {
      forall i | 0 <= i < |rooms[1..]| && rooms[1..][i].id == id ensures rooms[1..][i].category != category {
        assert rooms[1..][i] == rooms[i + 1];
      }
      TakeForeign(rooms[1..], category, taken, id);
    }
  }

  /** After a line is settled, what is free for every category. */
  lemma FreeAfterLine(rooms: seq<Room>, line: Line, category: string, taken: set<int>)
    requires DistinctRooms(rooms) && line.assignedRoom.None?
    ensures var free := FreeRooms(rooms, category, taken);
      FreeRooms(rooms, category, Use(taken, Settle(rooms, line, taken)))
        == if line.roomType == category && free != [] then free[1..] else free
  {
    var own := FreeRooms(rooms, line.roomType, taken);
    if own != [] {
      if line.roomType == category {
        TakeFirst(rooms, category, taken);
      } else {
        FreeRoomsExactly(rooms, line.roomType, taken);
        assert own[0] in FreeRooms(rooms, line.roomType, taken);
        TakeForeign(rooms, category, taken, own[0]);
      }
    }
  }

  lemma RankStep(lines: seq<Line>, i: nat, category: string)
    requires 1 <= i <= |lines|
    ensures Count(lines[..i], category)
         == Count(lines[1..][..i - 1], category) + if lines[0].roomType == category then 1 else 0
  {
    CountTail(lines[..i], category);
    assert lines[..i][1..] == lines[1..][..i - 1];
  }

  /** The i-th line of a category, counting from zero, gets the i-th free room of that category. */
  lemma {:induction false} GreedyRank(rooms: seq<Room>, lines: seq<Line>, taken: set<int>, i: nat)
    requires DistinctRooms(rooms) && AllUnassigned(lines) && i < |lines|
    ensures |AssignLines(rooms, lines, taken)| == |lines|
    ensures AssignLines(rooms, lines, taken)[i].assignedRoom
         == At(FreeRooms(rooms, lines[i].roomType, taken), Count(lines[..i], lines[i].roomType))
  {
    AssignLinesKeeps(rooms, lines, taken);
    if i > 0 {
      var rest := lines[1..];
      var next := Use(taken, Settle(rooms, lines[0], taken));
      assert AllUnassigned(rest) && rest[i - 1] == lines[i];
      GreedyRank(rooms, rest, next, i - 1);
      assert AssignLines(rooms, lines, taken)[i] == AssignLines(rooms, rest, next)[i - 1];
      RankStep(lines, i, lines[i].roomType);
      FreeAfterLine(rooms, lines[0], lines[i].roomType, taken);
    }
  }

  // ---- Maximality --------------------------------------------------------------

  /** An assignment of free rooms to lines that respects categories and uses no room twice. */
  ghost predicate IsMatching(rooms: seq<Room>, lines: seq<Line>, taken: set<int>, chosen: seq<Option<int>>) {
    && |chosen| == |lines|
    && (forall i :: 0 <= i < |lines| && chosen[i].Some? ==>
          chosen[i].value in FreeRooms(rooms, lines[i].roomType, taken))
    && (forall i, j :: 0 <= i < j < |lines| && chosen[i].Some? ==> chosen[i] != chosen[j])
  }

  function Choices(lines: seq<Line>): (chosen: seq<Option<int>>)
    ensures |chosen| == |lines|
    ensures forall i :: 0 <= i < |lines| ==> chosen[i] == lines[i].assignedRoom
  {
    seq(|lines|, i requires 0 <= i < |lines| => lines[i].assignedRoom)
  }

  /** The lines of the given categories that get a room. */
  ghost function Served(lines: seq<Line>, chosen: seq<Option<int>>, categories: set<string>): set<int>
    requires |chosen| == |lines|
  {
    set i | 0 <= i < |lines| && chosen[i].Some? && lines[i].roomType in categories
  }

  ghost function Categories(lines: seq<Line>): set<string> {
    set i | 0 <= i < |lines| :: lines[i].roomType
  }

  ghost function Min(a: nat, b: nat): nat { if a <= b then a else b }

  lemma {:induction false} FreeRoomsDistinct(rooms: seq<Room>, category: string, taken: set<int>)
    requires DistinctRooms(rooms)
    ensures var free := FreeRooms(rooms, category, taken);
      forall i, j :: 0 <= i < j < |free| ==> free[i] != free[j]
  {
    if rooms != [] {
      DistinctTail(rooms);
      FreeRoomsDistinct(rooms[1..], category, taken);
      FreeRoomsExactly(rooms[1..], category, taken);
      var rest := FreeRooms(rooms[1..], category, taken);
      forall j | 0 <= j < |rest| ensures rest[j] != rooms[0].id {
        assert rest[j] in FreeRooms(rooms[1..], category, taken);
        var i :| 0 <= i < |rooms[1..]| && rooms[1..][i].id == rest[j] && Fits(rooms[1..][i], category, taken);
        assert rooms[1..][i] == rooms[i + 1];
      }
    }
  }

  /** The positions of the lines that ask for a category. */
  ghost function Asking(lines: seq<Line>, category: string): set<int> {
    set i | 0 <= i < |lines| && lines[i].roomType == category
  }

  lemma {:induction false} CountIsSize(lines: seq<Line>, category: string)
    ensures |Asking(lines, category)| == Count(lines, category)
  {
    if lines != [] {
      var n := |lines| - 1;
      CountIsSize(lines[..n], category);
      assert Asking(lines, category)
          == Asking(lines[..n], category) + if lines[n].roomType == category then {n} else {};
    }
  }

  lemma {:induction false} CountMonotone(lines: seq<Line>, category: string, i: nat)
    requires i < |lines| && lines[i].roomType == category
    ensures Count(lines[..i], category) < Count(lines, category)
    decreases |lines|
  {
    var n := |lines| - 1;
    if i == n {
    } else {
      CountMonotone(lines[..n], category, i);
      assert lines[..n][..i] == lines[..i];
    }
  }

  /** Greedy choices form a matching. */
  lemma GreedyIsMatching(rooms: seq<Room>, lines: seq<Line>, taken: set<int>)
    requires DistinctRooms(rooms) && AllUnassigned(lines)
    ensures |AssignLines(rooms, lines, taken)| == |lines|
    ensures IsMatching(rooms, lines, taken, Choices(AssignLines(rooms, lines, taken)))
  {
    AssignLinesKeeps(rooms, lines, taken);
    var chosen := Choices(AssignLines(rooms, lines, taken));
    forall i | 0 <= i < |lines| && chosen[i].Some?
      ensures chosen[i].value in FreeRooms(rooms, lines[i].roomType, taken)
    {
      GreedyRank(rooms, lines, taken, i);
    }
    forall i, j | 0 <= i < j < |lines| && chosen[i].Some?
      ensures chosen[i] != chosen[j]
    {
      GreedyRank(rooms, lines, taken, i);
      GreedyRank(rooms, lines, taken, j);
      var c := lines[i].roomType;
      if lines[j].roomType == c {
        CountMonotone(lines[..j], c, i);
        assert lines[..j][..i] == lines[..i];
        FreeRoomsDistinct(rooms, c, taken);
      } else if chosen[j].Some? {
        OneCategory(rooms, taken, c, lines[j].roomType, chosen[i].value);
      }
    }
  }

  lemma OneCategory(rooms: seq<Room>, taken: set<int>, c: string, d: string, id: int)
    requires DistinctRooms(rooms) && c != d && id in FreeRooms(rooms, c, taken)
    ensures id !in FreeRooms(rooms, d, taken)
  {
    FreeRoomsExactly(rooms, c, taken);
    FreeRoomsExactly(rooms, d, taken);
  }

  /** No matching serves more lines of one category than there are such lines, or such free rooms. */
  lemma CategoryBound(rooms: seq<Room>, lines: seq<Line>, taken: set<int>, chosen: seq<Option<int>>, c: string)
    requires IsMatching(rooms, lines, taken, chosen)
    ensures |Served(lines, chosen, {c})| <= Min(Count(lines, c), |FreeRooms(rooms, c, taken)|)
  {
    var served := Served(lines, chosen, {c});
    CountIsSize(lines, c);
    SubsetSize(served, Asking(lines, c));
    var free := FreeRooms(rooms, c, taken);
    MembersSize(free);
    InjectiveSize(served, set id | id in free, map i | i in served :: chosen[i].value);
  }

  predicate IsEarly(lines: seq<Line>, c: string, f: nat, i: int) {
    0 <= i < |lines| && lines[i].roomType == c && Count(lines[..i], c) < f
  }

  /** The lines of a category with fewer than `f` of the same category before them. */
  ghost function Early(lines: seq<Line>, c: string, f: nat): set<int> {
    set i | 0 <= i < |lines| && IsEarly(lines, c, f, i)
  }

  lemma EarlyInFront(lines: seq<Line>, c: string, f: nat, n: nat, i: int)
    requires i < n <= |lines|
    ensures IsEarly(lines[..n], c, f, i) == IsEarly(lines, c, f, i)
  {
    if 0 <= i { assert lines[..n][..i] == lines[..i]; }
  }

  lemma {:induction false} EarlySize(lines: seq<Line>, c: string, f: nat)
    ensures |Early(lines, c, f)| == Min(Count(lines, c), f)
  {
    if lines != [] {
      var n := |lines| - 1;
      EarlySize(lines[..n], c, f);
      forall i | 0 <= i < n ensures i in Early(lines[..n], c, f) <==> i in Early(lines, c, f) {
        EarlyInFront(lines, c, f, n, i);
      }
      assert Early(lines, c, f) == Early(lines[..n], c, f) + if IsEarly(lines, c, f, n) then {n} else {};
    }
  }

  /** Greedy serves exactly min(lines of c, free rooms of c) lines of each category c. */
  lemma GreedyServesMin(rooms: seq<Room>, lines: seq<Line>, taken: set<int>, c: string)
    requires DistinctRooms(rooms) && AllUnassigned(lines)
    ensures |AssignLines(rooms, lines, taken)| == |lines|
    ensures |Served(lines, Choices(AssignLines(rooms, lines, taken)), {c})|
         == Min(Count(lines, c), |FreeRooms(rooms, c, taken)|)
  {
    AssignLinesKeeps(rooms, lines, taken);
    var chosen := Choices(AssignLines(rooms, lines, taken));
    var f := |FreeRooms(rooms, c, taken)|;
    forall i | 0 <= i < |lines| && lines[i].roomType == c
      ensures i in Served(lines, chosen, {c}) <==> i in Early(lines, c, f)
    {
      GreedyRank(rooms, lines, taken, i);
    }
    EarlySize(lines, c, f);
    assert Served(lines, chosen, {c}) == Early(lines, c, f);
  }

  lemma ServedSplits(lines: seq<Line>, chosen: seq<Option<int>>, categories: set<string>, c: string)
    requires |chosen| == |lines| && c in categories
    ensures |Served(lines, chosen, categories)|
         == |Served(lines, chosen, categories - {c})| + |Served(lines, chosen, {c})|
  {
    assert Served(lines, chosen, categories) == Served(lines, chosen, categories - {c}) + Served(lines, chosen, {c});
    assert Served(lines, chosen, categories - {c}) !! Served(lines, chosen, {c});
  }

  /** Category by category, so also in total: no matching serves more lines than the greedy one. */
  lemma {:induction false} GreedyDominates(
    rooms: seq<Room>, lines: seq<Line>, taken: set<int>, chosen: seq<Option<int>>, categories: set<string>)
    requires DistinctRooms(rooms) && AllUnassigned(lines)
    requires IsMatching(rooms, lines, taken, chosen)
    ensures |AssignLines(rooms, lines, taken)| == |lines|
    ensures |Served(lines, chosen, categories)|
         <= |Served(lines, Choices(AssignLines(rooms, lines, taken)), categories)|
    decreases categories
  {
    AssignLinesKeeps(rooms, lines, taken);
    var greedy := Choices(AssignLines(rooms, lines, taken));
    if categories == {} {
      assert Served(lines, chosen, categories) == {};
    } else {
      var c :| c in categories;
      GreedyDominates(rooms, lines, taken, chosen, categories - {c});
      CategoryBound(rooms, lines, taken, chosen, c);
      GreedyServesMin(rooms, lines, taken, c);
      ServedSplits(lines, chosen, categories, c);
      ServedSplits(lines, greedy, categories, c);
    }
  }

  /** The greedy assignment of a fresh or cleared reservation's lines is a maximum matching. */
  lemma GreedyIsMaximum(rooms: seq<Room>, lines: seq<Line>, taken: set<int>, chosen: seq<Option<int>>)
    requires DistinctRooms(rooms) && AllUnassigned(lines)
    requires IsMatching(rooms, lines, taken, chosen)
    ensures |AssignLines(rooms, lines, taken)| == |lines|
    ensures IsMatching(rooms, lines, taken, Choices(AssignLines(rooms, lines, taken)))
    ensures |set i | 0 <= i < |lines| && chosen[i].Some?|
         <= |set i | 0 <= i < |lines| && AssignLines(rooms, lines, taken)[i].assignedRoom.Some?|
  {
    GreedyIsMatching(rooms, lines, taken);
    GreedyDominates(rooms, lines, taken, chosen, Categories(lines));
    var greedy := AssignLines(rooms, lines, taken);
    assert Served(lines, chosen, Categories(lines)) == set i | 0 <= i < |lines| && chosen[i].Some?;
    assert Served(lines, Choices(greedy), Categories(lines))
        == set i | 0 <= i < |lines| && greedy[i].assignedRoom.Some?;
  }
}
