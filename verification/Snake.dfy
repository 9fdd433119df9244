/**
 The Snake simulation of web/scenarios.js: its moves and edits as values, the
 board scan and the breadth-first route search as loops.
 */
module Snakes {
  import opened Wrappers

  datatype Cell = Cell(x: int, y: int)

  datatype Direction = Up | Right | Down | Left

  function Opposite(d: Direction): Direction {
    match d
    case Up => Down
    case Right => Left
    case Down => Up
    case Left => Right
  }

  function Moved(c: Cell, d: Direction): Cell {
    match d
    case Up => Cell(c.x, c.y - 1)
    case Right => Cell(c.x + 1, c.y)
    case Down => Cell(c.x, c.y + 1)
    case Left => Cell(c.x - 1, c.y)
  }

  /** What `looped` compares: everything the next move depends on. */
  datatype Position = Position(heading: Direction, body: seq<Cell>, food: Cell, walls: seq<Cell>)

  datatype State = State(
    size: nat, heading: Direction, body: seq<Cell>, food: Cell, walls: seq<Cell>,
    seed: nat, turns: nat, score: nat, over: bool, looped: bool, recent: seq<Position>)

  const SEEDS := 0x1_0000_0000
  const RECENT := 512

  function Initial(seed: nat): State {
    State(8, Right, [Cell(3, 4), Cell(2, 4), Cell(1, 4)], Cell(5, 2),
          [Cell(1, 1), Cell(1, 2), Cell(4, 2), Cell(4, 3), Cell(5, 5)],
          seed % SEEDS, 0, 0, false, false, [])
  }

  function PositionOf(s: State): Position {
    Position(s.heading, s.body, s.food, s.walls)
  }

  // ----- one move -----

  datatype Hit = Clear | Wall | Body

  datatype Outcome = Outcome(next: Cell, eats: bool, hit: Hit)

  predicate Inside(c: Cell, size: nat) {
    0 <= c.x < size && 0 <= c.y < size
  }

  function OutcomeOf(s: State, d: Direction): Outcome
    requires s.body != []
  {
    var next := Moved(s.body[0], d);
    var eats := next == s.food;
    var occupied := if eats then s.body else s.body[..|s.body| - 1];
    Outcome(next, eats,
            if !Inside(next, s.size) || next in s.walls then Wall else if next in occupied then Body else Clear)
  }

  function NextSeed(seed: nat): (r: nat)
    ensures r < SEEDS
  {
    (seed * 1664525 + 1013904223) % SEEDS
  }

  /** floor(seed / 2^32 * n) */
  function Pick(seed: nat, n: nat): (i: nat)
    requires seed < SEEDS && n > 0
    ensures i < n
  {
    PickIsBelow(seed, n);
    seed * n / SEEDS
  }

  lemma PickIsBelow(seed: nat, n: nat)
    requires seed < SEEDS && n > 0
    ensures 0 <= seed * n < SEEDS * n
  {
    Multiplied(SEEDS, seed, n);
  }

  lemma Multiplied(a: nat, b: nat, n: nat)
    requires b < a && n > 0
    ensures 0 <= b * n < a * n
  {}

  /** The free cells of row y left of x, in order. */
  function FreeInRow(taken: seq<Cell>, y: int, x: nat): (r: seq<Cell>)
    ensures forall c :: c in r <==> c.y == y && 0 <= c.x < x && c !in taken
  {
    if x == 0 then []
    else FreeInRow(taken, y, x - 1) + if Cell(x - 1, y) in taken then [] else [Cell(x - 1, y)]
  }

  /** The free cells of the rows above y, row by row: exactly the cells that are inside and not taken. */
  function FreeAbove(taken: seq<Cell>, size: nat, y: nat): (r: seq<Cell>)
    ensures forall c :: c in r <==> 0 <= c.x < size && 0 <= c.y < y && c !in taken
  {
    if y == 0 then [] else FreeAbove(taken, size, y - 1) + FreeInRow(taken, y - 1, size)
  }

  /** The inner loop: the free cells of row y, put after those found before. */
  method ScanRow(size: nat, taken: seq<Cell>, y: int, found: seq<Cell>) returns (free: seq<Cell>)
    ensures free == found + FreeInRow(taken, y, size)
  {
    free := found;
    for x := 0 to size
      invariant free == found + FreeInRow(taken, y, x)
    {
      if Cell(x, y) !in taken {
        free := free + [Cell(x, y)];
      }
    }
  }

  method FreeCells(size: nat, taken: seq<Cell>) returns (free: seq<Cell>)
    ensures free == FreeAbove(taken, size, size)
  {
    free := [];
    for y := 0 to size
      invariant free == FreeAbove(taken, size, y)
    {
      free := ScanRow(size, taken, y, free);
    }
  }

  function LastFew(recent: seq<Position>): seq<Position> {
    if |recent| <= RECENT then recent else recent[|recent| - RECENT..]
  }

  /** A move that hits nothing, the free cells after it being known. */
  function Advance(s: State, d: Direction, o: Outcome, free: seq<Cell>): (next: State)
    requires s.body != []
    ensures next.body != []
  {
    var body := [o.next] + if o.eats then s.body else s.body[..|s.body| - 1];
    var moved := s.(turns := s.turns + 1, heading := d, body := body);
    if !o.eats then
      var key := PositionOf(moved);
      var previous := if s.recent == [] then [PositionOf(s)] else s.recent;
      moved.(looped := key in previous, recent := LastFew(previous + [key]))
    else if free == [] then
      moved.(score := s.score + 10, over := true)
    else
      var seed := NextSeed(s.seed);
      var fed := moved.(score := s.score + 10, seed := seed, food := free[Pick(seed, |free|)]);
      fed.(looped := false, recent := [PositionOf(fed)])
  }

  function Step(s: State, d: Direction): (next: State)
    requires s.body != []
    ensures next.body != []
  {
    var o := OutcomeOf(s, d);
    if s.over || d == Opposite(s.heading) then s
    else if o.hit != Clear then s.(turns := s.turns + 1, heading := d, over := true)
    else Advance(s, d, o, FreeAbove([o.next] + s.body + s.walls, s.size, s.size))
  }

  method StepSnake(s: State, d: Direction) returns (next: State)
    requires s.body != []
    ensures next == Step(s, d)
  {
    if s.over || d == Opposite(s.heading) {
      return s;
    }
    var o := OutcomeOf(s, d);
    if o.hit != Clear {
      return s.(turns := s.turns + 1, heading := d, over := true);
    }
    var free := [];
    if o.eats {
      free := FreeCells(s.size, [o.next] + s.body + s.walls);
    }
    next := Advance(s, d, o, free);
  }

  // ----- edits -----

  function Without(walls: seq<Cell>, c: Cell): (r: seq<Cell>)
    ensures forall p :: p in r <==> p in walls && p != c
  {
    if walls == [] then []
    else if walls[0] == c then Without(walls[1..], c)
    else [walls[0]] + Without(walls[1..], c)
  }

  function Edit(s: State, c: Cell, wall: bool): State {
    if s.over || !Inside(c, s.size) || c in s.body then s
    else if wall && s.food == c then s
    else
      var next :=
        if wall then s.(walls := if c in s.walls then Without(s.walls, c) else s.walls + [c])
        else if c in s.walls then s
        else s.(food := c);
      next.(recent := [], looped := false)
  }

  // ----- what every run keeps -----

  ghost predicate NoRepeats(cells: seq<Cell>) {
    forall i, j | 0 <= i < j < |cells| :: cells[i] != cells[j]
  }

  ghost predicate Sound(s: State) {
    && s.body != [] && NoRepeats(s.body)
    && (forall c :: c in s.body ==> Inside(c, s.size) && c !in s.walls)
    && (forall c :: c in s.walls ==> Inside(c, s.size))
    && Inside(s.food, s.size) && s.food !in s.walls
    && (!s.over ==> s.food !in s.body)
    && 10 * |s.body| == s.score + 30
  }

  datatype Action = Turn(direction: Direction) | Place(cell: Cell, wall: bool)

  function Act(s: State, a: Action): (next: State)
    requires s.body != []
    ensures next.body != []
  {
    match a
    case Turn(d) => Step(s, d)
    case Place(c, wall) => Edit(s, c, wall)
  }

  lemma InitialIsSound(seed: nat)
    ensures Sound(Initial(seed)) && !Initial(seed).over
  {}

  lemma PushedIsFresh(body: seq<Cell>, next: Cell)
    requires NoRepeats(body) && next !in body
    ensures NoRepeats([next] + body)
  {}

  lemma AdvanceKeeps(s: State, d: Direction)
    requires Sound(s) && !s.over && OutcomeOf(s, d).hit == Clear
    ensures Sound(Advance(s, d, OutcomeOf(s, d), FreeAbove([OutcomeOf(s, d).next] + s.body + s.walls, s.size, s.size)))
  {
    var o := OutcomeOf(s, d);
    var tail := if o.eats then s.body else s.body[..|s.body| - 1];
    PushedIsFresh(tail, o.next);
    var taken := [o.next] + s.body + s.walls;
    var free := FreeAbove(taken, s.size, s.size);
    var after := Advance(s, d, o, free);
    assert forall c :: c in after.body ==> c == o.next || c in s.body;
    if o.eats && free != [] {
      assert after.food in free;
    }
  }

  /** Every move and every edit keeps the board sound. */
  lemma ActKeeps(s: State, a: Action)
    requires Sound(s)
    ensures Sound(Act(s, a))
  {
    match a
    case Turn(d) =>
      if !s.over && d != Opposite(s.heading) && OutcomeOf(s, d).hit == Clear {
        AdvanceKeeps(s, d);
      }
    case Place(c, wall) =>
  }

  function Run(s: State, actions: seq<Action>): State
    requires s.body != []
    decreases |actions|
  {
    if actions == [] then s else Run(Act(s, actions[0]), actions[1..])
  }

  /** Bodies stay inside, free of repeats and off walls, and a live board's food is off both. */
  lemma {:induction false} RunKeeps(s: State, actions: seq<Action>)
    requires Sound(s)
    ensures Sound(Run(s, actions))
    decreases |actions|
  {
    if actions != [] {
      ActKeeps(s, actions[0]);
      RunKeeps(Act(s, actions[0]), actions[1..]);
    }
  }

  /** The food can always be eaten: a move onto it hits nothing. */
  lemma EatingIsSafe(s: State, d: Direction)
    requires Sound(s) && !s.over
    ensures OutcomeOf(s, d).eats ==> OutcomeOf(s, d).hit == Clear
  {}

  /** The y axis points down: the four moves go to the four neighbours, each on its own side. */
  lemma MovesAreNeighbours(c: Cell, d: Direction, to: Cell)
    ensures to == Moved(c, d) <==> (match d case Up => to.x == c.x && to.y == c.y - 1
                                            case Down => to.x == c.x && c.y == to.y - 1
                                            case Left => to.y == c.y && to.x == c.x - 1
                                            case Right => to.y == c.y && c.x == to.x - 1)
    ensures Moved(Moved(c, d), Opposite(d)) == c
  {}

  /** On a live board a move is free exactly on an inner cell off the walls and off the body without its tail. */
  lemma ClearIff(s: State, d: Direction)
    requires Sound(s) && !s.over
    ensures var to := Moved(s.body[0], d);
            OutcomeOf(s, d).hit == Clear <==>
              && 0 <= to.x < s.size && 0 <= to.y < s.size && to !in s.walls
              && forall i | 0 <= i < |s.body| - 1 :: s.body[i] != to
  {}

  /** The cell the tail is leaving can be entered. */
  lemma TailDoesNotBlock(s: State, d: Direction)
    requires Sound(s) && !s.over && Moved(s.body[0], d) == s.body[|s.body| - 1]
    ensures OutcomeOf(s, d).hit == Clear
  {
    ClearIff(s, d);
  }

  /** A free move puts the head on the next cell, and every other part where the one before it was. */
  lemma BodyFollows(s: State, d: Direction)
    requires Sound(s) && !s.over && d != Opposite(s.heading) && OutcomeOf(s, d).hit == Clear
    ensures var t, eats := Step(s, d), Moved(s.body[0], d) == s.food;
            && |t.body| == |s.body| + (if eats then 1 else 0) && t.body[0] == Moved(s.body[0], d)
            && (forall i | 0 < i < |t.body| :: t.body[i] == s.body[i - 1])
            && t.score == s.score + (if eats then 10 else 0) && t.walls == s.walls && (!eats ==> t.food == s.food)
  {}

  predicate Before(a: Cell, b: Cell) {
    a.y < b.y || (a.y == b.y && a.x < b.x)
  }

  ghost predicate InOrder(cells: seq<Cell>) {
    forall i, j | 0 <= i < j < |cells| :: Before(cells[i], cells[j])
  }

  lemma OrderedConcat(a: seq<Cell>, b: seq<Cell>)
    requires InOrder(a) && InOrder(b) && forall p, q | p in a && q in b :: Before(p, q)
    ensures InOrder(a + b)
  {
    var c := a + b;
    forall i, j | 0 <= i < j < |c| ensures Before(c[i], c[j]) {
      assert i < |a| ==> c[i] in a;
      assert j >= |a| ==> c[j] in b;
    }
  }

  lemma {:induction false} RowInOrder(taken: seq<Cell>, y: int, x: nat)
    ensures InOrder(FreeInRow(taken, y, x))
  {
    if x > 0 {
      RowInOrder(taken, y, x - 1);
      OrderedConcat(FreeInRow(taken, y, x - 1), if Cell(x - 1, y) in taken then [] else [Cell(x - 1, y)]);
    }
  }

  /** The free cells are listed row by row from the top, each row from the left. */
  lemma {:induction false} FreeInOrder(taken: seq<Cell>, size: nat, y: nat)
    ensures InOrder(FreeAbove(taken, size, y))
  {
    if y > 0 {
      FreeInOrder(taken, size, y - 1);
      RowInOrder(taken, y - 1, size);
      OrderedConcat(FreeAbove(taken, size, y - 1), FreeInRow(taken, y - 1, size));
    }
  }

  lemma Quotient(a: nat, b: nat, i: nat)
    requires b > 0
    ensures a / b == i <==> i * b <= a < (i + 1) * b
  {
    var q := a / b;
    assert q * b <= a < (q + 1) * b;
    if q < i {
      Scaled(q + 1, i, b);
    } else if i < q {
      Scaled(i + 1, q, b);
    }
  }

  lemma Scaled(a: nat, b: nat, n: nat)
    requires a <= b
    ensures a * n <= b * n
  {}

  /** Choice i of n is made by exactly the seeds in the i-th of n equal parts of the 2^32. */
  lemma PickIsShare(seed: nat, n: nat, i: nat)
    requires seed < SEEDS && n > 0
    ensures Pick(seed, n) == i <==> i * 0x1_0000_0000 <= seed * n < (i + 1) * 0x1_0000_0000
  {
    Quotient(seed * n, SEEDS, i);
  }

  /** So every free cell can get the food, as long as there are no more of them than seeds. */
  lemma EveryCellIsPicked(n: nat, i: nat) returns (seed: nat)
    requires i < n <= SEEDS
    ensures seed < SEEDS && Pick(seed, n) == i
  {
    var low := i * SEEDS;
    seed := (low + n - 1) / n;
    assert low <= seed * n < low + n;
    assert (i + 1) * SEEDS == low + SEEDS;
    Scaled(i + 1, n, SEEDS);
    if seed >= SEEDS {
      Scaled(SEEDS, seed, n);
      assert false;
    }
    PickIsShare(seed, n, i);
  }

  /** The food after a meal: a free cell, found at the seed's share of their list. */
  lemma FoodAfterMeal(s: State, d: Direction)
    requires Sound(s) && !s.over && d != Opposite(s.heading) && Moved(s.body[0], d) == s.food
    ensures var t, free := Step(s, d), FreeAbove([s.food] + s.body + s.walls, s.size, s.size);
            free != [] ==> t.seed < SEEDS && t.food == free[Pick(t.seed, |free|)]
  {
    EatingIsSafe(s, d);
  }

  /** What an edit of cell c does to the board: the walls flip at c alone, or the food moves to it. */
  lemma EditIsLocal(s: State, c: Cell, wall: bool)
    requires Sound(s)
    ensures var t, taken := Edit(s, c, wall), s.over || !Inside(c, s.size) || c in s.body || (wall && c == s.food);
            && t.body == s.body && t.heading == s.heading && t.score == s.score && t.over == s.over
            && (taken ==> t == s)
            && (!taken ==> t.recent == [] && !t.looped)
            && (!taken && wall ==> t.food == s.food && (c in t.walls <==> c !in s.walls))
            && (!taken && !wall ==> t.walls == s.walls && t.food == if c in s.walls then s.food else c)
            && forall p | p != c :: p in t.walls <==> p in s.walls
  {}

  /** Eating ends the game exactly when body and walls fill the board. */
  lemma CompleteIffFull(s: State, d: Direction)
    requires Sound(s) && !s.over && d != Opposite(s.heading) && OutcomeOf(s, d).eats
    ensures Step(s, d).over <==> forall c | Inside(c, s.size) :: c in Step(s, d).body || c in s.walls
  {
    var o := OutcomeOf(s, d);
    var taken := [o.next] + s.body + s.walls;
    var free := FreeAbove(taken, s.size, s.size);
    if free != [] {
      assert free[0] in free;
    }
  }

  /** A board remembers its history: nothing yet but itself, or the last 512 positions. */
  ghost predicate Remembers(s: State, history: seq<Position>) {
    history != [] && (if s.recent == [] then history == [PositionOf(s)] else s.recent == LastFew(history))
  }

  /** A plain move sets `looped` exactly when the new position is among the last 512. */
  lemma LoopedMeansRepeated(s: State, d: Direction, history: seq<Position>)
    requires s.body != [] && Remembers(s, history)
    requires !s.over && d != Opposite(s.heading) && OutcomeOf(s, d).hit == Clear && !OutcomeOf(s, d).eats
    ensures var t := Step(s, d);
            Remembers(t, history + [PositionOf(t)]) && (t.looped <==> PositionOf(t) in LastFew(history))
  {
    LastFewAgain(history, PositionOf(Step(s, d)));
  }

  lemma LastFewAgain(history: seq<Position>, p: Position)
    ensures LastFew(LastFew(history) + [p]) == LastFew(history + [p])
  {}

  // ----- the route search -----

  /** Where a route may go: the board without the obstacles. */
  datatype Maze = Maze(size: nat, blocked: set<Cell>)

  predicate Open(m: Maze, c: Cell) {
    Inside(c, m.size) && c !in m.blocked
  }

  predicate Adjacent(a: Cell, b: Cell) {
    (a.x == b.x && (a.y == b.y + 1 || b.y == a.y + 1)) || (a.y == b.y && (a.x == b.x + 1 || b.x == a.x + 1))
  }

  /** A route of n steps; the first cell itself need not be open. */
  ghost predicate Reaches(m: Maze, from: Cell, to: Cell, n: nat)
    decreases n
  {
    if n == 0 then from == to
    else Open(m, to) && exists via :: Reaches(m, from, via, n - 1) && Adjacent(via, to)
  }

  ghost predicate Shortest(m: Maze, from: Cell, to: Cell, n: nat) {
    Reaches(m, from, to, n) && forall k: nat | k < n :: !Reaches(m, from, to, k)
  }

  datatype Visit = Visit(cell: Cell, distance: nat)

  ghost predicate Queued(queue: seq<Visit>, c: Cell, distance: nat) {
    exists j :: 0 <= j < |queue| && queue[j].cell == c && queue[j].distance <= distance
  }

  /** Everything open beside a visited cell is queued, at most one step farther. */
  ghost predicate Expanded(m: Maze, queue: seq<Visit>, v: Visit) {
    forall c | Adjacent(v.cell, c) && Open(m, c) :: Queued(queue, c, v.distance + 1)
  }

  ghost predicate Searching(m: Maze, from: Cell, queue: seq<Visit>, seen: set<Cell>, i: nat) {
    && Layered(m, from, queue, i)
    && (forall j | 0 <= j < |queue| :: Reaches(m, from, queue[j].cell, queue[j].distance))
    && (forall j, k | 0 <= j < k < |queue| :: queue[j].cell != queue[k].cell)
    && (forall c :: c in seen <==> exists j :: 0 <= j < |queue| && queue[j].cell == c)
  }

  /** Distances never fall along the queue, and the first i visits are expanded. */
  ghost predicate Layered(m: Maze, from: Cell, queue: seq<Visit>, i: nat) {
    && i <= |queue| && queue != [] && queue[0] == Visit(from, 0)
    && (forall j, k | 0 <= j < k < |queue| :: queue[j].distance <= queue[k].distance)
    && forall j {:trigger Expanded(m, queue, queue[j])} | 0 <= j < i :: Expanded(m, queue, queue[j])
  }

  lemma {:induction false} NearIsQueued(m: Maze, from: Cell, queue: seq<Visit>, i: nat, c: Cell, n: nat)
    requires Layered(m, from, queue, i) && Reaches(m, from, c, n)
    requires i < |queue| ==> n <= queue[i].distance
    ensures Queued(queue, c, n)
    decreases n
  {
    if n == 0 {
      assert queue[0].cell == c;
    } else {
      var via :| Reaches(m, from, via, n - 1) && Adjacent(via, c);
      NearIsQueued(m, from, queue, i, via, n - 1);
      BesideIsQueued(m, from, queue, i, via, c, n);
    }
  }

  lemma BesideIsQueued(m: Maze, from: Cell, queue: seq<Visit>, i: nat, via: Cell, c: Cell, n: nat)
    requires Layered(m, from, queue, i) && n > 0 && Queued(queue, via, n - 1)
    requires Adjacent(via, c) && Open(m, c)
    requires i < |queue| ==> n <= queue[i].distance
    ensures Queued(queue, c, n)
  {
    var j :| 0 <= j < |queue| && queue[j].cell == via && queue[j].distance <= n - 1;
    assert j < i;
    assert Expanded(m, queue, queue[j]);
    var k :| 0 <= k < |queue| && queue[k].cell == c && queue[k].distance <= queue[j].distance + 1;
  }

  /** The first visit of a cell is at its shortest distance. */
  lemma FoundIsShortest(m: Maze, from: Cell, queue: seq<Visit>, seen: set<Cell>, i: nat)
    requires Searching(m, from, queue, seen, i) && i < |queue|
    ensures Shortest(m, from, queue[i].cell, queue[i].distance)
  {
    var c := queue[i].cell;
    forall k: nat | k < queue[i].distance ensures !Reaches(m, from, c, k) {
      if Reaches(m, from, c, k) {
        NearIsQueued(m, from, queue, i, c, k);
        assert false;
      }
    }
  }

  /** An exhausted search has seen everything that can be reached. */
  lemma MissedIsUnreachable(m: Maze, from: Cell, queue: seq<Visit>, seen: set<Cell>, goal: Cell)
    requires Searching(m, from, queue, seen, |queue|) && goal !in seen
    ensures forall n: nat :: !Reaches(m, from, goal, n)
  {
    forall n: nat ensures !Reaches(m, from, goal, n) {
      if Reaches(m, from, goal, n) {
        NearIsQueued(m, from, queue, |queue|, goal, n);
        assert false;
      }
    }
  }

  lemma FirstVisit(m: Maze, from: Cell)
    ensures Searching(m, from, [Visit(from, 0)], {from}, 0)
  {
    assert Reaches(m, from, from, 0);
    assert [Visit(from, 0)][0].cell == from;
  }

  lemma StaysQueued(queue: seq<Visit>, v: Visit, c: Cell, distance: nat)
    requires Queued(queue, c, distance)
    ensures Queued(queue + [v], c, distance)
  {
    var j :| 0 <= j < |queue| && queue[j].cell == c && queue[j].distance <= distance;
    assert (queue + [v])[j] == queue[j];
  }

  lemma StaysExpanded(m: Maze, queue: seq<Visit>, v: Visit, w: Visit)
    requires Expanded(m, queue, w)
    ensures Expanded(m, queue + [v], w)
  {
    forall c | Adjacent(w.cell, c) && Open(m, c) ensures Queued(queue + [v], c, w.distance + 1) {
      StaysQueued(queue, v, c, w.distance + 1);
    }
  }

  /** Queueing an unseen neighbour of the cell in hand. */
  lemma PushKeeps(m: Maze, from: Cell, queue: seq<Visit>, seen: set<Cell>, i: nat, c: Cell)
    requires Searching(m, from, queue, seen, i) && i < |queue|
    requires Adjacent(queue[i].cell, c) && Open(m, c) && c !in seen
    requires forall j | 0 <= j < |queue| :: queue[j].distance <= queue[i].distance + 1
    ensures Searching(m, from, queue + [Visit(c, queue[i].distance + 1)], seen + {c}, i)
  {
    var v := Visit(c, queue[i].distance + 1);
    var longer := queue + [v];
    assert Reaches(m, from, c, queue[i].distance + 1);
    forall j | 0 <= j < i ensures Expanded(m, longer, longer[j]) {
      assert Expanded(m, queue, queue[j]);
      StaysExpanded(m, queue, v, queue[j]);
    }
    forall x ensures x in seen + {c} <==> exists j :: 0 <= j < |longer| && longer[j].cell == x {
      if x == c {
        assert longer[|queue|].cell == c;
      } else if x in seen {
        var j :| 0 <= j < |queue| && queue[j].cell == x;
        assert longer[j].cell == x;
      }
    }
  }

  const DIRECTIONS := [Up, Right, Down, Left]

  lemma AdjacentIsMoved(a: Cell, b: Cell)
    requires Adjacent(a, b)
    ensures exists k :: 0 <= k < 4 && b == Moved(a, DIRECTIONS[k])
  {
    assert b == Moved(a, DIRECTIONS[0]) || b == Moved(a, DIRECTIONS[1]) || b == Moved(a, DIRECTIONS[2]) ||
        b == Moved(a, DIRECTIONS[3]);
  }

  lemma AllFourExpand(m: Maze, queue: seq<Visit>, v: Visit)
    requires forall k | 0 <= k < 4 :: NeighbourQueued(m, queue, v, k)
    ensures Expanded(m, queue, v)
  {
    forall c | Adjacent(v.cell, c) && Open(m, c) ensures Queued(queue, c, v.distance + 1) {
      AdjacentIsMoved(v.cell, c);
      var k :| 0 <= k < 4 && c == Moved(v.cell, DIRECTIONS[k]);
      assert NeighbourQueued(m, queue, v, k);
    }
  }

  ghost predicate NeighbourQueued(m: Maze, queue: seq<Visit>, v: Visit, k: nat)
    requires k < 4
  {
    Open(m, Moved(v.cell, DIRECTIONS[k])) ==> Queued(queue, Moved(v.cell, DIRECTIONS[k]), v.distance + 1)
  }

  /** The inner loop: the open unseen neighbours of the cell in hand are queued. */
  method Expand(m: Maze, ghost from: Cell, queue: seq<Visit>, seen: set<Cell>, i: nat)
    returns (longer: seq<Visit>, more: set<Cell>)
    requires Searching(m, from, queue, seen, i) && i < |queue|
    requires (forall j | 0 <= j < |queue| :: Inside(queue[j].cell, m.size)) && WithinOne(queue, i)
    ensures Searching(m, from, longer, more, i + 1) && |queue| <= |longer| && longer[..|queue|] == queue
    ensures (forall j | 0 <= j < |longer| :: Inside(longer[j].cell, m.size)) && WithinOne(longer, i)
  {
    longer, more := queue, seen;
    var v := queue[i];
    for k := 0 to 4
      invariant |queue| <= |longer| && longer[..|queue|] == queue && longer[i] == v
      invariant Expanding(m, from, longer, more, i, k)
    {
      longer, more := Look(m, from, longer, more, i, k);
    }
    AllExpanded(m, from, longer, more, i);
  }

  /** One neighbour of the cell in hand. */
  method Look(m: Maze, ghost from: Cell, queue: seq<Visit>, seen: set<Cell>, i: nat, k: nat)
    returns (longer: seq<Visit>, more: set<Cell>)
    requires k < 4 && Expanding(m, from, queue, seen, i, k)
    ensures Expanding(m, from, longer, more, i, k + 1) && |queue| <= |longer| && longer[..|queue|] == queue
  {
    var c := Moved(queue[i].cell, DIRECTIONS[k]);
    if Open(m, c) && c !in seen {
      NeighbourPushed(m, from, queue, seen, i, k);
      longer, more := queue + [Visit(c, queue[i].distance + 1)], seen + {c};
    } else {
      NeighbourSkipped(m, from, queue, seen, i, k);
      longer, more := queue, seen;
    }
  }

  lemma AllExpanded(m: Maze, from: Cell, queue: seq<Visit>, seen: set<Cell>, i: nat)
    requires Expanding(m, from, queue, seen, i, 4)
    ensures Searching(m, from, queue, seen, i + 1)
  {
    AllFourExpand(m, queue, queue[i]);
  }

  ghost predicate WithinOne(queue: seq<Visit>, i: nat)
    requires i < |queue|
  {
    forall j | 0 <= j < |queue| :: queue[j].distance <= queue[i].distance + 1
  }

  /** The first k neighbours of the cell in hand are queued. */
  ghost predicate Expanding(m: Maze, from: Cell, queue: seq<Visit>, seen: set<Cell>, i: nat, k: nat)
    requires k <= 4
  {
    && Searching(m, from, queue, seen, i) && i < |queue|
    && (forall j | 0 <= j < |queue| :: Inside(queue[j].cell, m.size)) && WithinOne(queue, i)
    && forall l | 0 <= l < k :: NeighbourQueued(m, queue, queue[i], l)
  }

  lemma NeighbourPushed(m: Maze, from: Cell, queue: seq<Visit>, seen: set<Cell>, i: nat, k: nat)
    requires k < 4 && Expanding(m, from, queue, seen, i, k)
    requires Open(m, Moved(queue[i].cell, DIRECTIONS[k])) && Moved(queue[i].cell, DIRECTIONS[k]) !in seen
    ensures Expanding(m, from, queue + [Visit(Moved(queue[i].cell, DIRECTIONS[k]), queue[i].distance + 1)],
                      seen + {Moved(queue[i].cell, DIRECTIONS[k])}, i, k + 1)
  {
    var v := queue[i];
    var c := Moved(v.cell, DIRECTIONS[k]);
    var w := Visit(c, v.distance + 1);
    PushKeeps(m, from, queue, seen, i, c);
    forall l | 0 <= l < k + 1 ensures NeighbourQueued(m, queue + [w], v, l) {
      if l == k {
        assert (queue + [w])[|queue|].cell == c;
      } else {
        assert NeighbourQueued(m, queue, v, l);
        if Open(m, Moved(v.cell, DIRECTIONS[l])) {
          StaysQueued(queue, w, Moved(v.cell, DIRECTIONS[l]), v.distance + 1);
        }
      }
    }
  }

  lemma NeighbourSkipped(m: Maze, from: Cell, queue: seq<Visit>, seen: set<Cell>, i: nat, k: nat)
    requires k < 4 && Expanding(m, from, queue, seen, i, k)
    requires !Open(m, Moved(queue[i].cell, DIRECTIONS[k])) || Moved(queue[i].cell, DIRECTIONS[k]) in seen
    ensures Expanding(m, from, queue, seen, i, k + 1)
  {
    var c := Moved(queue[i].cell, DIRECTIONS[k]);
    if c in seen {
      var j :| 0 <= j < |queue| && queue[j].cell == c;
      assert Queued(queue, c, queue[i].distance + 1);
    }
    assert NeighbourQueued(m, queue, queue[i], k);
  }

  function Grid(size: nat): set<Cell> {
    set x, y | 0 <= x < size && 0 <= y < size :: Cell(x, y)
  }

  /** The cells not yet expanded. */
  ghost predicate Unexpanded(left: set<Cell>, queue: seq<Visit>, size: nat, i: nat)
    requires i <= |queue|
  {
    && (forall j | i <= j < |queue| :: queue[j].cell in left)
    && forall c | Inside(c, size) && c !in left :: exists j :: 0 <= j < i && queue[j].cell == c
  }

  lemma LeftShrinks(left: set<Cell>, was: seq<Visit>, now: seq<Visit>, size: nat, i: nat)
    requires i < |was| <= |now| && now[..|was|] == was && Unexpanded(left, was, size, i)
    requires forall j | 0 <= j < |now| :: Inside(now[j].cell, size)
    requires forall j, k | 0 <= j < k < |now| :: now[j].cell != now[k].cell
    ensures Unexpanded(left - {was[i].cell}, now, size, i + 1)
  {
    var less := left - {was[i].cell};
    forall c | Inside(c, size) && c !in less ensures exists j :: 0 <= j < i + 1 && now[j].cell == c {
      if c != was[i].cell {
        var j :| 0 <= j < i && was[j].cell == c;
        assert now[j].cell == c;
      }
    }
    forall j | i + 1 <= j < |now| ensures now[j].cell in less {
      assert now[j].cell != now[i].cell;
      assert forall k | 0 <= k < i :: was[k].cell == now[k].cell && now[k].cell != now[j].cell;
    }
  }

  /** The breadth-first search: the shortest route, or none exactly when there is none. */
  method Route(m: Maze, from: Cell, goal: Cell) returns (route: Option<nat>)
    requires Inside(from, m.size)
    ensures RouteIs(m, from, goal, route)
  {
    var queue, seen := [Visit(from, 0)], {from};
    FirstVisit(m, from);
    var i := 0;
    ghost var left := Grid(m.size);
    while i < |queue|
      invariant Searching(m, from, queue, seen, i)
      invariant forall j | 0 <= j < |queue| :: Inside(queue[j].cell, m.size)
      invariant i < |queue| ==> WithinOne(queue, i)
      invariant forall j | 0 <= j < i :: queue[j].cell != goal
      invariant Unexpanded(left, queue, m.size, i)
      decreases |left|
    {
      var v := queue[i];
      if v.cell == goal {
        FoundIsShortest(m, from, queue, seen, i);
        return Some(v.distance);
      }
      ghost var was := queue;
      queue, seen := Expand(m, from, queue, seen, i);
      LeftShrinks(left, was, queue, m.size, i);
      left := left - {v.cell};
      i := i + 1;
    }
    MissedIsUnreachable(m, from, queue, seen, goal);
    return None;
  }

  ghost predicate RouteIs(m: Maze, from: Cell, goal: Cell, route: Option<nat>) {
    match route
    case None => forall n: nat :: !Reaches(m, from, goal, n)
    case Some(n) => Shortest(m, from, goal, n)
  }

  // ----- the facts for one decision -----

  datatype Fact = Dies(hit: Hit) | Eats | NoPath | Nearest(route: nat) | Detour(route: nat)

  function Among(cells: seq<Cell>): set<Cell> {
    set c | c in cells
  }

  /** Walls and the held body, once the head has moved on. */
  function MazeAfter(s: State): Maze
    requires s.body != []
  {
    Maze(s.size, Among(s.walls) + Among(s.body[..|s.body| - 1]))
  }

  predicate Survives(s: State, d: Direction)
    requires s.body != []
  {
    d != Opposite(s.heading) && OutcomeOf(s, d).hit == Clear && !OutcomeOf(s, d).eats
  }

  ghost predicate RouteAfter(s: State, d: Direction, route: Option<nat>)
    requires s.body != []
  {
    RouteIs(MazeAfter(s), OutcomeOf(s, d).next, s.food, route)
  }

  /** The move survives without eating and leaves a shortest route of n steps. */
  ghost predicate HasRoute(s: State, d: Direction, n: nat)
    requires s.body != []
  {
    Survives(s, d) && RouteAfter(s, d, Some(n))
  }

  ghost predicate FactHolds(s: State, d: Direction, f: Fact)
    requires s.body != []
  {
    var o := OutcomeOf(s, d);
    match f
    case Dies(hit) => hit != Clear && o.hit == hit
    case Eats => o.hit == Clear && o.eats
    case NoPath => Survives(s, d) && RouteAfter(s, d, None)
    case Nearest(n) =>
      HasRoute(s, d, n)
      && forall e, k: nat | HasRoute(s, e, k) :: n <= k
    case Detour(n) =>
      HasRoute(s, d, n)
      && exists e, k: nat :: HasRoute(s, e, k) && k < n
  }

  lemma RouteIsUnique(m: Maze, from: Cell, goal: Cell, one: Option<nat>, two: Option<nat>)
    requires RouteIs(m, from, goal, one) && RouteIs(m, from, goal, two)
    ensures one == two
  {}

  function RouteIn(f: Fact): Option<nat> {
    if f.Nearest? || f.Detour? then Some(f.route) else None
  }

  /** At most one fact holds of a direction, so the facts are the whole story. */
  lemma FactIsDetermined(s: State, d: Direction, f: Fact, g: Fact)
    requires s.body != [] && FactHolds(s, d, f) && FactHolds(s, d, g)
    ensures f == g
  {
    if Survives(s, d) {
      var m, next := MazeAfter(s), OutcomeOf(s, d).next;
      RouteIsUnique(m, next, s.food, RouteIn(f), RouteIn(g));
    }
  }

  /** The routes of the moves that survive without eating. */
  ghost predicate RoutesFound(s: State, routes: map<Direction, Option<nat>>, k: nat)
    requires s.body != [] && k <= 4
  {
    && (forall l | 0 <= l < k :: DIRECTIONS[l] in routes <==> Survives(s, DIRECTIONS[l]))
    && forall d | d in routes :: Survives(s, d) && RouteAfter(s, d, routes[d])
  }

  ghost predicate IsBest(routes: map<Direction, Option<nat>>, best: Option<nat>) {
    match best
    case None => forall d | d in routes :: routes[d] == None
    case Some(n) =>
      (exists d :: d in routes && routes[d] == Some(n)) && forall d | d in routes && routes[d] != None ::
          n <= routes[d].value
  }

  method FindRoutes(s: State) returns (routes: map<Direction, Option<nat>>, best: Option<nat>)
    requires s.body != []
    ensures RoutesFound(s, routes, 4) && IsBest(routes, best)
  {
    routes, best := map[], None;
    for k := 0 to 4
      invariant RoutesFound(s, routes, k) && IsBest(routes, best)
      invariant forall l | k <= l < 4 :: DIRECTIONS[l] !in routes
    {
      var d := DIRECTIONS[k];
      if Survives(s, d) {
        var route := Route(MazeAfter(s), OutcomeOf(s, d).next, s.food);
        ghost var was := routes;
        routes := routes[d := route];
        if route.Some? && (best == None || route.value < best.value) {
          best := route;
          assert routes[d] == best;
        } else if best.Some? {
          ghost var e :| e in was && was[e] == best;
          assert routes[e] == best;
        }
      }
    }
  }

  lemma EveryDirection(d: Direction)
    ensures exists k :: 0 <= k < 4 && DIRECTIONS[k] == d
  {
    assert DIRECTIONS[0] == Up && DIRECTIONS[1] == Right && DIRECTIONS[2] == Down && DIRECTIONS[3] == Left;
  }

  /** The facts handed to the model: one for each allowed direction, each of them true. */
  method MoveFacts(s: State) returns (facts: map<Direction, Fact>)
    requires s.body != []
    ensures forall d :: d in facts <==> d != Opposite(s.heading)
    ensures forall d | d in facts :: FactHolds(s, d, facts[d])
  {
    var routes, best := FindRoutes(s);
    facts := map[];
    for k := 0 to 4
      invariant forall l | 0 <= l < k :: DIRECTIONS[l] in facts <==> DIRECTIONS[l] != Opposite(s.heading)
      invariant forall d | d in facts :: d != Opposite(s.heading) && FactHolds(s, d, facts[d])
    {
      var d := DIRECTIONS[k];
      if d != Opposite(s.heading) {
        var o := OutcomeOf(s, d);
        var fact;
        if o.hit != Clear {
          fact := Dies(o.hit);
        } else if o.eats {
          fact := Eats;
        } else {
          BestIsLeast(s, routes, best);
          match routes[d] {
            case None => fact := NoPath;
            case Some(n) => fact := if best == Some(n) then Nearest(n) else Detour(n);
          }
        }
        facts := facts[d := fact];
      }
    }
    forall d ensures d in facts <==> d != Opposite(s.heading) {
      EveryDirection(d);
    }
  }

  lemma BestIsLeast(s: State, routes: map<Direction, Option<nat>>, best: Option<nat>)
    requires s.body != [] && RoutesFound(s, routes, 4) && IsBest(routes, best)
    ensures forall d :: Survives(s, d) <==> d in routes
    ensures forall e, n: nat | HasRoute(s, e, n) :: best.Some? && best.value <= n
    ensures best.Some? ==> exists e :: HasRoute(s, e, best.value)
  {
    forall d ensures Survives(s, d) <==> d in routes {
      EveryDirection(d);
    }
    forall e, n: nat | HasRoute(s, e, n) ensures best.Some? && best.value <= n {
      RouteIsUnique(MazeAfter(s), OutcomeOf(s, e).next, s.food, Some(n), routes[e]);
    }
    if best.Some? {
      var d :| d in routes && routes[d] == best;
      assert HasRoute(s, d, best.value);
    }
  }
}
