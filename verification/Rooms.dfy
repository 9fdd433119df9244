/**
 What is recorded about every rule of a grammar while it is built: how many
 stack entries its expansion can take, how many it does take, and what its
 expansion costs the worklist before the first byte is read. Records are
 checked against the rules alone, so they say nothing of how the rules came
 about.
 */
module RuleRooms {
  import opened Grammars

  function Larger(a: nat, b: nat): nat {
    if a < b then b else a
  }

  /**
   The expansion of a symbol with nothing read: the iterations it takes, the
   stacks that end in front of a terminal, those on which the symbol vanishes,
   and the most entries that one of them has.
   */
  datatype Cost = Cost(work: nat, live: nat, gone: nat, early: nat)

  /** No text makes the symbol take more than `most` entries, and some text makes it take `least`. */
  datatype Room = Room(most: nat, least: nat, first: Cost)

  type Rooms = seq<Room>

  const TERMINAL := Room(1, 1, Cost(1, 1, 0, 1))

  function RoomAt(rooms: Rooms, s: Symbol): Room {
    if 0 <= s < |rooms| then rooms[s] else TERMINAL
  }

  function CostOf(rooms: Rooms, s: Symbol): Cost {
    RoomAt(rooms, s).first
  }

  // ----- entries -----

  /** The symbol fits in h entries; a terminal takes one. */
  predicate Fits(rooms: Rooms, s: Symbol, h: int) {
    1 <= h && s < |rooms| && RoomAt(rooms, s).most <= h
  }

  /** The symbol at k waits below |row| - 1 - k others until those before it are matched. */
  predicate RowFits(rooms: Rooms, row: seq<Symbol>, h: int) {
    forall k | 0 <= k < |row| :: Fits(rooms, row[k], h - (|row| - 1 - k))
  }

  predicate RowsFit(rooms: Rooms, rows: seq<seq<Symbol>>, h: int) {
    forall i {:trigger RowFits(rooms, rows[i], h)} | 0 <= i < |rows| :: RowFits(rooms, rows[i], h)
  }

  /** Some text makes the symbol take p entries; none is needed to make it take one. */
  predicate Tops(rooms: Rooms, s: Symbol, p: int) {
    s < |rooms| && p <= Larger(1, RoomAt(rooms, s).least)
  }

  /** Symbol k of row i, below the bound, takes p entries together with those that wait below it. */
  predicate TopsAt(rooms: Rooms, rows: seq<seq<Symbol>>, bound: nat, p: nat, i: nat, k: nat) {
    && i < |rows| && k < |rows[i]| && rows[i][k] < bound
    && Tops(rooms, rows[i][k], p - (|rows[i]| - 1 - k))
  }

  ghost predicate Attains(rooms: Rooms, rows: seq<seq<Symbol>>, bound: nat, p: nat) {
    p <= 1 || exists i: nat, k: nat :: TopsAt(rooms, rows, bound, p, i, k)
  }

  // ----- costs -----

  /** The product, written so that it is cheap to reason about when n is a small number. */
  function Times(n: nat, x: nat): nat {
    if n == 0 then 0 else x + Times(n - 1, x)
  }

  lemma {:induction false} TimesIsProduct(n: nat, x: nat)
    ensures Times(n, x) == n * x
  {
    if n > 0 {
      TimesIsProduct(n - 1, x);
    }
  }

  predicate Comes(c: Cost, work: nat, live: nat, gone: nat, early: nat) {
    c.work == work && c.live == live && c.gone == gone && c.early == early
  }

  /** A symbol in front of `waiting` others, then those once it has vanished. */
  predicate Follows(c: Cost, a: Cost, rest: Cost, waiting: nat) {
    Comes(c, a.work + Times(a.gone, rest.work), a.live + Times(a.gone, rest.live), Times(a.gone, rest.gone),
          Larger(a.early + waiting, if a.gone > 0 then rest.early else 0))
  }

  /** One or the other. */
  predicate Sums(c: Cost, a: Cost, b: Cost) {
    Comes(c, a.work + b.work, a.live + b.live, a.gone + b.gone, Larger(a.early, b.early))
  }

  /** An empty row leaves nothing to expand. */
  function RowCost(rooms: Rooms, row: seq<Symbol>): Cost {
    if row == [] then Cost(0, 0, 1, 0)
    else
      var a, rest := CostOf(rooms, row[0]), RowCost(rooms, row[1..]);
      Cost(a.work + Times(a.gone, rest.work), a.live + Times(a.gone, rest.live), Times(a.gone, rest.gone),
           Larger(a.early + |row| - 1, if a.gone > 0 then rest.early else 0))
  }

  function RowsCost(rooms: Rooms, rows: seq<seq<Symbol>>): Cost {
    if rows == [] then Cost(0, 0, 0, 1)
    else
      var a, b := RowsCost(rooms, rows[..|rows| - 1]), RowCost(rooms, rows[|rows| - 1]);
      Cost(a.work + b.work, a.live + b.live, a.gone + b.gone, Larger(a.early, b.early))
  }

  /** The rule itself is one iteration more. */
  function RuleCost(rooms: Rooms, rows: seq<seq<Symbol>>): Cost {
    var c := RowsCost(rooms, rows);
    Cost(c.work + 1, c.live, c.gone, c.early)
  }

  /** Each stack ends somewhere, so there is a live one or a vanished one. */
  predicate Ends(c: Cost) {
    c.live + c.gone >= 1 && c.early >= 1 && c.work >= 1
  }

  // ----- records of a whole grammar -----

  ghost predicate IsRoomOf(rooms: Rooms, rows: seq<seq<Symbol>>, r: nat)
    requires r < |rooms|
  {
    && rows != []
    && RowsFit(rooms, rows, rooms[r].most)
    && Attains(rooms, rows, r, rooms[r].least)
    && rooms[r].first == RuleCost(rooms, rows) && Ends(rooms[r].first)
  }

  /** Every rule's record is right. */
  ghost predicate Measured(rules: seq<seq<seq<Symbol>>>, rooms: Rooms) {
    |rooms| == |rules| && forall r {:trigger IsRoomOf(rooms, rules[r], r)} | 0 <= r < |rules| ::
        IsRoomOf(rooms, rules[r], r)
  }

  // ----- growth -----

  /** The records so far are still those of the same symbols. */
  ghost predicate StillFit(rooms: Rooms, later: Rooms) {
    |rooms| <= |later| && forall s: Symbol {:trigger RoomAt(later, s)} | s < |rooms| ::
        RoomAt(later, s) == RoomAt(rooms, s)
  }

  lemma RowsFitLater(rooms: Rooms, later: Rooms, rows: seq<seq<Symbol>>, h: int, more: int)
    requires StillFit(rooms, later) && RowsFit(rooms, rows, h) && h <= more
    ensures RowsFit(later, rows, more)
  {
    forall i | 0 <= i < |rows| ensures RowFits(later, rows[i], more) {
      assert RowFits(rooms, rows[i], h);
    }
  }

  lemma RowsFitConcat(rooms: Rooms, a: seq<seq<Symbol>>, b: seq<seq<Symbol>>, h: int)
    requires RowsFit(rooms, a, h) && RowsFit(rooms, b, h)
    ensures RowsFit(rooms, a + b, h)
  {
    forall i | 0 <= i < |a + b| ensures RowFits(rooms, (a + b)[i], h) {
      if i < |a| {
        assert RowFits(rooms, a[i], h);
      } else {
        assert RowFits(rooms, b[i - |a|], h);
      }
    }
  }

  lemma {:induction false} RowCostLater(rooms: Rooms, later: Rooms, row: seq<Symbol>)
    requires StillFit(rooms, later) && forall k | 0 <= k < |row| :: row[k] < |rooms|
    ensures RowCost(later, row) == RowCost(rooms, row)
    decreases |row|
  {
    if row != [] {
      RowCostLater(rooms, later, row[1..]);
    }
  }

  lemma {:induction false} RowsCostLater(rooms: Rooms, later: Rooms, rows: seq<seq<Symbol>>, h: int)
    requires StillFit(rooms, later) && RowsFit(rooms, rows, h)
    ensures RowsCost(later, rows) == RowsCost(rooms, rows)
    decreases |rows|
  {
    if rows != [] {
      var front, last := rows[..|rows| - 1], |rows| - 1;
      assert RowFits(rooms, rows[last], h);
      forall i | 0 <= i < |front| ensures RowFits(rooms, front[i], h) {
        assert RowFits(rooms, rows[i], h);
      }
      RowsCostLater(rooms, later, front, h);
      forall k | 0 <= k < |rows[last]| ensures rows[last][k] < |rooms| {
        assert Fits(rooms, rows[last][k], h - (|rows[last]| - 1 - k));
      }
      RowCostLater(rooms, later, rows[last]);
    }
  }

  lemma AttainsLater(rooms: Rooms, later: Rooms, rows: seq<seq<Symbol>>, bound: nat, more: nat, p: nat)
    requires StillFit(rooms, later) && bound <= |rooms| && bound <= more && Attains(rooms, rows, bound, p)
    ensures Attains(later, rows, more, p)
  {
    if p > 1 {
      var i: nat, k: nat :| TopsAt(rooms, rows, bound, p, i, k);
      assert TopsAt(later, rows, more, p, i, k);
    }
  }

  /** What one of the rows attains, all of them do. */
  lemma AttainsBeside(rooms: Rooms, row: seq<Symbol>, rows: seq<seq<Symbol>>, j: nat, bound: nat, p: nat)
    requires Attains(rooms, [row], bound, p) && j < |rows| && rows[j] == row
    ensures Attains(rooms, rows, bound, p)
  {
    if p > 1 {
      var i: nat, k: nat :| TopsAt(rooms, [row], bound, p, i, k);
      assert TopsAt(rooms, rows, bound, p, j, k);
    }
  }

  lemma AppendedFits(rooms: Rooms, room: Room)
    ensures StillFit(rooms, rooms + [room])
  {}

  /** A rule whose record is right, over recorded symbols or over itself in last place, may be added. */
  lemma RuleMeasured(rules: seq<seq<seq<Symbol>>>, rooms: Rooms, rows: seq<seq<Symbol>>, room: Room)
    requires Measured(rules, rooms) && IsRoomOf(rooms + [room], rows, |rooms|)
    ensures Measured(rules + [rows], rooms + [room])
  {
    var later := rooms + [room];
    AppendedFits(rooms, room);
    forall r | 0 <= r < |rules + [rows]| ensures IsRoomOf(later, (rules + [rows])[r], r) {
      if r < |rules| {
        assert IsRoomOf(rooms, rules[r], r);
        RowsFitLater(rooms, later, rules[r], rooms[r].most, rooms[r].most);
        RowsCostLater(rooms, later, rules[r], rooms[r].most);
        AttainsLater(rooms, later, rules[r], r, r, rooms[r].least);
      }
    }
  }

  // ----- costs of a new rule -----

  lemma {:induction false} RowEnds(rooms: Rooms, row: seq<Symbol>)
    requires forall k | 0 <= k < |row| :: Ends(CostOf(rooms, row[k]))
    ensures RowCost(rooms, row).live + RowCost(rooms, row).gone >= 1
    decreases |row|
  {
    if row != [] {
      RowEnds(rooms, row[1..]);
      var a, rest := CostOf(rooms, row[0]), RowCost(rooms, row[1..]);
      TimesCovers(a.gone, rest.live);
      TimesCovers(a.gone, rest.gone);
    }
  }

  lemma {:induction false} TimesCovers(n: nat, x: nat)
    ensures n >= 1 && x >= 1 ==> Times(n, x) >= 1
  {
    if n > 1 {
      TimesCovers(n - 1, x);
    }
  }

  lemma {:induction false} RowsEnd(rooms: Rooms, rows: seq<seq<Symbol>>)
    requires forall i, k | 0 <= i < |rows| && 0 <= k < |rows[i]| :: Ends(CostOf(rooms, rows[i][k]))
    ensures rows != [] ==> RowsCost(rooms, rows).live + RowsCost(rooms, rows).gone >= 1
    ensures RowsCost(rooms, rows).early >= 1
    decreases |rows|
  {
    if rows != [] {
      var front := rows[..|rows| - 1];
      RowsEnd(rooms, front);
      RowEnds(rooms, rows[|rows| - 1]);
    }
  }

  lemma SymbolEnds(rules: seq<seq<seq<Symbol>>>, rooms: Rooms, s: Symbol)
    requires Measured(rules, rooms)
    ensures Ends(CostOf(rooms, s))
  {
    if 0 <= s < |rooms| {
      assert IsRoomOf(rooms, rules[s], s);
    }
  }

  lemma CostCarries(rules: seq<seq<seq<Symbol>>>, rooms: Rooms, later: Rooms, rows: seq<seq<Symbol>>, h: nat)
    requires Measured(rules, rooms) && StillFit(rooms, later) && rows != [] && RowsFit(rooms, rows, h)
    ensures RuleCost(later, rows) == RuleCost(rooms, rows) && Ends(RuleCost(rooms, rows))
  {
    RowsCostLater(rooms, later, rows, h);
    forall i, k | 0 <= i < |rows| && 0 <= k < |rows[i]| ensures Ends(CostOf(rooms, rows[i][k])) {
      SymbolEnds(rules, rooms, rows[i][k]);
    }
    RowsEnd(rooms, rows);
  }

  /** The record of a rule over symbols already recorded. */
  lemma NewRule(rules: seq<seq<seq<Symbol>>>, rooms: Rooms, rows: seq<seq<Symbol>>, h: nat, p: nat)
    requires Measured(rules, rooms) && rows != [] && RowsFit(rooms, rows, h) && Attains(rooms, rows, |rooms|, p)
    ensures Measured(rules + [rows], rooms + [Room(h, p, RuleCost(rooms, rows))])
  {
    NewRuleCosting(rules, rooms, rows, h, p, RuleCost(rooms, rows));
  }

  lemma NewRuleCosting(rules: seq<seq<seq<Symbol>>>, rooms: Rooms, rows: seq<seq<Symbol>>, h: nat, p: nat, c: Cost)
    requires Measured(rules, rooms) && rows != [] && RowsFit(rooms, rows, h) && Attains(rooms, rows, |rooms|, p)
    requires c == RuleCost(rooms, rows)
    ensures Measured(rules + [rows], rooms + [Room(h, p, c)])
  {
    var later := rooms + [Room(h, p, c)];
    AppendedFits(rooms, Room(h, p, c));
    RowsFitLater(rooms, later, rows, h, h);
    CostCarries(rules, rooms, later, rows, h);
    AttainsLater(rooms, later, rows, |rooms|, |rooms|, p);
    RuleMeasured(rules, rooms, rows, Room(h, p, c));
  }

  /** A row whose first symbol cannot vanish costs what that symbol costs. */
  lemma LeadCost(rooms: Rooms, row: seq<Symbol>)
    requires row != [] && CostOf(rooms, row[0]).gone == 0
    ensures var a := CostOf(rooms, row[0]); RowCost(rooms, row) == Cost(a.work, a.live, 0, a.early + |row| - 1)
  {}

  /** A symbol alone in its row. */
  lemma SymbolCost(rooms: Rooms, row: seq<Symbol>)
    requires |row| == 1
    ensures var c := CostOf(rooms, row[0]); Comes(RowCost(rooms, row), c.work, c.live, c.gone, c.early)
  {
    var c := CostOf(rooms, row[0]);
    TimesIsProduct(c.gone, 0);
    TimesIsProduct(c.gone, 1);
    assert row[1..] == [];
  }

  lemma RowCostStep(rooms: Rooms, row: seq<Symbol>)
    requires row != []
    ensures Follows(RowCost(rooms, row), CostOf(rooms, row[0]), RowCost(rooms, row[1..]), |row| - 1)
  {}

  lemma RowsCostStep(rooms: Rooms, rows: seq<seq<Symbol>>)
    requires rows != []
    ensures Sums(RowsCost(rooms, rows), RowsCost(rooms, rows[..|rows| - 1]), RowCost(rooms, rows[|rows| - 1]))
  {}

  lemma OneRowCost(rooms: Rooms, rows: seq<seq<Symbol>>)
    requires |rows| == 1
    ensures var c := RowCost(rooms, rows[0]); Comes(RowsCost(rooms, rows), c.work, c.live, c.gone, Larger(1, c.early))
  {
    assert rows[..0] == [];
  }

  lemma TwoRowsCost(rooms: Rooms, rows: seq<seq<Symbol>>)
    requires |rows| == 2
    ensures var c, d := RowCost(rooms, rows[0]), RowCost(rooms, rows[1]);
            && RowsCost(rooms, rows).work == c.work + d.work && RowsCost(rooms, rows).live == c.live + d.live
            && RowsCost(rooms, rows).gone == c.gone + d.gone
            && RowsCost(rooms, rows).early == Larger(Larger(1, c.early), d.early)
  {
    OneRowCost(rooms, rows[..1]);
    assert rows[..1][0] == rows[0];
  }

  /** A row, or nothing at all. */
  lemma MaybeCost(rooms: Rooms, rows: seq<seq<Symbol>>)
    requires |rows| == 2 && rows[0] == []
    ensures var c := RowCost(rooms, rows[1]);
            Comes(RuleCost(rooms, rows), c.work + 1, c.live, c.gone + 1, Larger(1, c.early))
  {
    TwoRowsCost(rooms, rows);
  }

  /** The two rows of `many`. */
  predicate Repetition(rows: seq<seq<Symbol>>, value: Symbol, self: Symbol) {
    |rows| == 2 && rows[0] == [] && rows[1] == [value, self]
  }

  lemma ManyCost(rooms: Rooms, rows: seq<seq<Symbol>>, value: Symbol, self: Symbol)
    requires Repetition(rows, value, self) && CostOf(rooms, value).gone == 0
    ensures var c := CostOf(rooms, value); Comes(RuleCost(rooms, rows), c.work + 1, c.live, 1, Larger(1, c.early + 1))
  {
    LeadCost(rooms, rows[1]);
    MaybeCost(rooms, rows);
  }

  lemma ManyFits(rooms: Rooms, rows: seq<seq<Symbol>>, value: Symbol, self: nat, h: nat)
    requires Repetition(rows, value, self) && Fits(rooms, value, h - 1) && self < |rooms| && rooms[self].most == h
    ensures RowsFit(rooms, rows, h)
  {
    assert RowFits(rooms, rows[0], h) && RowFits(rooms, rows[1], h);
  }

  /** The record of the right recursion of `many`, over a symbol that never vanishes. */
  lemma NewMany(rules: seq<seq<seq<Symbol>>>, rooms: Rooms, rows: seq<seq<Symbol>>, value: Symbol, room: Room)
    requires Measured(rules, rooms) && Repetition(rows, value, |rooms|)
    requires Fits(rooms, value, room.most - 1) && CostOf(rooms, value).gone == 0 && room.least == 1
    requires var c := CostOf(rooms, value); Comes(room.first, c.work + 1, c.live, 1, c.early + 1)
    ensures Measured(rules + [rows], rooms + [room])
  {
    var later := rooms + [room];
    AppendedFits(rooms, room);
    SymbolEnds(rules, rooms, value);
    ManyKeeps(rooms, later, rows, value, room);
    RuleMeasured(rules, rooms, rows, room);
  }

  lemma ManyKeeps(rooms: Rooms, later: Rooms, rows: seq<seq<Symbol>>, value: Symbol, room: Room)
    requires later == rooms + [room] && StillFit(rooms, later) && Repetition(rows, value, |rooms|)
    requires Fits(rooms, value, room.most - 1) && CostOf(rooms, value).gone == 0 && room.least == 1
    requires var c := CostOf(rooms, value); Comes(room.first, c.work + 1, c.live, 1, c.early + 1) && Ends(c)
    ensures IsRoomOf(later, rows, |rooms|)
  {
    assert RoomAt(later, value) == RoomAt(rooms, value);
    var c := CostOf(rooms, value);
    ManyCost(later, rows, value, |rooms|);
    SameCost(room.first, RuleCost(later, rows), c.work + 1, c.live, 1, c.early + 1);
    ManyFits(later, rows, value, |rooms|, room.most);
    RightRoom(later, rows, |rooms|);
  }

  lemma SameCost(a: Cost, b: Cost, work: nat, live: nat, gone: nat, early: nat)
    requires Comes(a, work, live, gone, early) && Comes(b, work, live, gone, early)
    ensures a == b
  {}

  lemma RightRoom(rooms: Rooms, rows: seq<seq<Symbol>>, r: nat)
    requires r < |rooms| && rows != [] && RowsFit(rooms, rows, rooms[r].most) && rooms[r].least == 1
    requires rooms[r].first == RuleCost(rooms, rows) && Ends(rooms[r].first)
    ensures IsRoomOf(rooms, rows, r)
  {}
}
