/**
 The records of the rules that the schema compiler adds: how many entries they
 take and what their expansion costs, read off the symbols they are made of.
 */
module Records {
  import opened Bytes
  import opened Grammars
  import opened RuleRooms
  import opened JsonTexts
  import opened Schemas

  // ----- what a record says -----

  /** The symbol's record is that of the schema. */
  predicate Sized(rooms: Rooms, s: Symbol, schema: Schema) {
    s < |rooms| && Meets(RoomAt(rooms, s), schema)
  }

  predicate Meets(room: Room, schema: Schema) {
    && room.most <= StackNeed(schema, SCALAR_ROOM) && StackNeed(schema, 1) <= Larger(1, room.least)
    && room.first == FirstCost(schema)
  }

  /** The symbol's record is that of a literal. */
  predicate Spells(rooms: Rooms, s: Symbol, t: Word) {
    s < |rooms| && IsLiteral(RoomAt(rooms, s), t)
  }

  predicate IsLiteral(room: Room, t: Word) {
    room.most <= Larger(1, |t|) && |t| <= Larger(1, room.least) && room.first == WordCost(t)
  }

  /** White space takes two entries and may be left out. */
  predicate Blank(rooms: Rooms, s: Symbol) {
    s < |rooms| && IsBlank(RoomAt(rooms, s))
  }

  predicate IsBlank(room: Room) {
    room.most <= 2 && Comes(room.first, 2, 1, 1, 2)
  }

  // ----- the primitives -----

  /** One rule whose only row begins with a symbol that cannot vanish. */
  predicate LedBy(c: Cost, first: Cost, length: nat)
    requires length > 0
  {
    first.gone == 0 ==> Comes(c, first.work + 1, first.live, 0, Larger(1, first.early + length - 1))
  }

  predicate OrNothing(c: Cost, rule: Cost) {
    Comes(c, rule.work + 1, rule.live, rule.gone + 1, Larger(1, rule.early))
  }

  predicate Repeats(c: Cost, value: Cost) {
    value.gone == 0 && Comes(c, value.work + 1, value.live, 1, value.early + 1)
  }

  lemma SequenceCost(rooms: Rooms, symbols: seq<Symbol>)
    requires symbols != []
    ensures LedBy(RuleCost(rooms, [symbols]), CostOf(rooms, symbols[0]), |symbols|)
  {
    if CostOf(rooms, symbols[0]).gone == 0 {
      LeadCost(rooms, symbols);
    }
    OneRowCost(rooms, [symbols]);
  }

  lemma OptionalCost(rooms: Rooms, rule: Symbol)
    ensures OrNothing(RuleCost(rooms, [[], [rule]]), CostOf(rooms, rule))
  {
    MaybeCost(rooms, [[], [rule]]);
    SymbolCost(rooms, [rule]);
  }

  lemma LiteralRecord(rooms: Rooms, symbols: seq<Symbol>, h: nat)
    requires forall k | 0 <= k < |symbols| :: symbols[k] < 0
    requires h == if symbols == [] then 1 else |symbols|
    ensures RowsFit(rooms, [symbols], h) && Attains(rooms, [symbols], |rooms|, h)
  {
    assert RowFits(rooms, symbols, h);
    if h > 1 {
      assert TopsAt(rooms, [symbols], |rooms|, h, 0, 0);
    }
  }

  lemma LiteralCost(rooms: Rooms, symbols: seq<Symbol>, t: Word)
    requires |symbols| == |t| && forall k | 0 <= k < |symbols| :: symbols[k] < 0
    ensures RuleCost(rooms, [symbols]) == WordCost(t)
  {
    OneRowCost(rooms, [symbols]);
    if t != [] {
      LeadCost(rooms, symbols);
    }
  }

  // ----- the fixed rules -----

  lemma MagnitudeCost(rooms: Rooms, zero: Symbol, row: seq<Symbol>)
    requires zero < 0 && |row| == 2 && row[0] < 0
    ensures Comes(RuleCost(rooms, [[zero], row]), 3, 2, 0, 2)
  {
    SymbolCost(rooms, [zero]);
    LeadCost(rooms, row);
    TwoRowsCost(rooms, [[zero], row]);
  }

  lemma SignedCost(rooms: Rooms, sign: Symbol, magnitude: Symbol)
    requires Comes(CostOf(rooms, sign), 2, 1, 1, 1) && Comes(CostOf(rooms, magnitude), 3, 2, 0, 2)
    ensures RuleCost(rooms, [[sign, magnitude]]) == FirstCost(IntegerSchema)
  {
    var row := [sign, magnitude];
    SymbolCost(rooms, row[1..]);
    OneRowCost(rooms, [row]);
  }

  lemma NumberCost(c: Cost, whole: Cost)
    requires whole == FirstCost(IntegerSchema) && LedBy(c, whole, 3)
    ensures c == FirstCost(NumberSchema)
  {}

  lemma BooleanCost(rooms: Rooms, yes: Symbol, no: Symbol)
    requires CostOf(rooms, yes) == WordCost(TRUE_TEXT) && CostOf(rooms, no) == WordCost(FALSE_TEXT)
    ensures RuleCost(rooms, [[yes], [no]]) == FirstCost(BooleanSchema)
  {
    SymbolCost(rooms, [yes]);
    SymbolCost(rooms, [no]);
    TwoRowsCost(rooms, [[yes], [no]]);
  }

  // ----- enumerated values -----

  predicate LiteralsBuilt(rooms: Rooms, rows: seq<seq<Symbol>>, values: seq<Word>) {
    |rows| <= |values| && forall i {:trigger rows[i]} | 0 <= i < |rows| ::
        |rows[i]| == 1 && Spells(rooms, rows[i][0], values[i])
  }

  lemma OneLiteralMore(had: Rooms, rooms: Rooms, rows: seq<seq<Symbol>>, values: seq<Word>, literal: Symbol)
    requires LiteralsBuilt(had, rows, values) && StillFit(had, rooms) && |rows| < |values|
    requires Spells(rooms, literal, values[|rows|])
    ensures LiteralsBuilt(rooms, rows + [[literal]], values)
  {
    forall i | 0 <= i < |rows| ensures Spells(rooms, rows[i][0], values[i]) {
      assert RoomAt(rooms, rows[i][0]) == RoomAt(had, rows[i][0]);
    }
  }

  lemma {:induction false} WordsCostAdds(rooms: Rooms, rows: seq<seq<Symbol>>, values: seq<Word>)
    requires LiteralsBuilt(rooms, rows, values) && |rows| == |values|
    ensures RowsCost(rooms, rows) == WordsCost(values)
    decreases |values|
  {
    if values != [] {
      var last := |values| - 1;
      WordsCostAdds(rooms, rows[..last], values[..last]);
      SymbolCost(rooms, rows[last]);
      assert RowCost(rooms, rows[last]) == WordCost(values[last]);
    }
  }

  lemma {:induction false} LongestWord(values: seq<Word>, base: nat) returns (i: nat)
    requires WordsNeed(values, base) > base
    ensures i < |values| && |values[i]| == WordsNeed(values, base)
  {
    if |values[0]| == WordsNeed(values, base) {
      i := 0;
    } else {
      i := LongestWord(values[1..], base);
      i := i + 1;
    }
  }

  lemma LiteralsRecord(rooms: Rooms, rows: seq<seq<Symbol>>, values: seq<Word>)
    requires LiteralsBuilt(rooms, rows, values) && |rows| == |values|
    ensures RowsFit(rooms, rows, WordsNeed(values, SCALAR_ROOM))
    ensures Attains(rooms, rows, |rooms|, WordsNeed(values, 1))
    ensures RuleCost(rooms, rows) == FirstCost(EnumSchema(values))
  {
    WordsCostAdds(rooms, rows, values);
    forall i | 0 <= i < |rows| ensures RowFits(rooms, rows[i], WordsNeed(values, SCALAR_ROOM)) {
      assert Spells(rooms, rows[i][0], values[i]);
    }
    if WordsNeed(values, 1) > 1 {
      var i := LongestWord(values, 1);
      assert Spells(rooms, rows[i][0], values[i]);
      assert TopsAt(rooms, rows, |rooms|, WordsNeed(values, 1), i, 0);
    }
  }

  // ----- choices -----

  /** One alternative per choice. */
  function Alone(choices: seq<Symbol>): (rows: seq<seq<Symbol>>)
    ensures |rows| == |choices| && forall i | 0 <= i < |choices| :: rows[i] == [choices[i]]
  {
    seq(|choices|, i requires 0 <= i < |choices| => [choices[i]])
  }

  lemma {:induction false} PartsCostAdds(rooms: Rooms, choices: seq<Symbol>, parts: seq<Schema>)
    requires |choices| == |parts| && forall i | 0 <= i < |parts| :: CostOf(rooms, choices[i]) == FirstCost(parts[i])
    ensures RowsCost(rooms, Alone(choices)) == PartsCost(parts)
    decreases |parts|
  {
    if parts != [] {
      var last := |parts| - 1;
      PartsCostAdds(rooms, choices[..last], parts[..last]);
      assert Alone(choices)[..last] == Alone(choices[..last]);
      LastCostAdds(rooms, Alone(choices), FirstCost(parts[last]));
    }
  }

  lemma LastCostAdds(rooms: Rooms, rows: seq<seq<Symbol>>, c: Cost)
    requires rows != [] && |rows[|rows| - 1]| == 1 && CostOf(rooms, rows[|rows| - 1][0]) == c
    ensures Sums(RowsCost(rooms, rows), RowsCost(rooms, rows[..|rows| - 1]), c)
  {
    SymbolCost(rooms, rows[|rows| - 1]);
  }

  lemma {:induction false} WidestPart(parts: seq<Schema>, base: nat) returns (i: nat)
    requires PartsNeed(parts, base) > base
    ensures i < |parts| && StackNeed(parts[i], base) == PartsNeed(parts, base)
    decreases |parts|
  {
    var last := |parts| - 1;
    if StackNeed(parts[last], base) == PartsNeed(parts, base) {
      i := last;
    } else {
      i := WidestPart(parts[..last], base);
    }
  }

  /** The record of a choice between parts. */
  lemma PartsRecord(rooms: Rooms, choices: seq<Symbol>, parts: seq<Schema>)
    requires |choices| == |parts| && forall i | 0 <= i < |choices| :: Sized(rooms, choices[i], parts[i])
    ensures RowsFit(rooms, Alone(choices), PartsNeed(parts, SCALAR_ROOM))
    ensures Attains(rooms, Alone(choices), |rooms|, PartsNeed(parts, 1))
    ensures RuleCost(rooms, Alone(choices)) == FirstCost(AnyOfSchema(parts))
  {
    PartsFit(rooms, choices, parts);
    PartsAttain(rooms, choices, parts);
    PartsCostAdds(rooms, choices, parts);
  }

  lemma PartsFit(rooms: Rooms, choices: seq<Symbol>, parts: seq<Schema>)
    requires |choices| == |parts| && forall i | 0 <= i < |choices| :: Sized(rooms, choices[i], parts[i])
    ensures RowsFit(rooms, Alone(choices), PartsNeed(parts, SCALAR_ROOM))
  {
    var h := PartsNeed(parts, SCALAR_ROOM);
    forall i | 0 <= i < |parts| ensures RowFits(rooms, Alone(choices)[i], h) {
      assert Sized(rooms, choices[i], parts[i]) && StackNeed(parts[i], SCALAR_ROOM) <= h;
    }
  }

  lemma PartsAttain(rooms: Rooms, choices: seq<Symbol>, parts: seq<Schema>)
    requires |choices| == |parts| && forall i | 0 <= i < |choices| :: Sized(rooms, choices[i], parts[i])
    ensures Attains(rooms, Alone(choices), |rooms|, PartsNeed(parts, 1))
  {
    var p := PartsNeed(parts, 1);
    if p > 1 {
      var i := WidestPart(parts, 1);
      assert Sized(rooms, choices[i], parts[i]);
      assert TopsAt(rooms, Alone(choices), |rooms|, p, i, 0);
    }
  }

  // ----- members -----

  /** The entries of the members from property i on; the closing brace is one more. */
  function LaterNeed(properties: seq<Property>, i: nat): (n: nat)
    requires i <= |properties|
  {
    PropertiesNeed(properties[i..], 1) - 1
  }

  lemma LaterNeedStep(properties: seq<Property>, i: nat)
    requires i < |properties|
    ensures LaterNeed(properties, i) == Larger(PropertyNeed(properties[i], 1) - 1, LaterNeed(properties, i + 1))
  {
    assert properties[i..][1..] == properties[i + 1..];
  }

  /** A key, a value or what follows them takes p entries above what waits below it in a member. */
  predicate MemberTops(rooms: Rooms, key: Symbol, value: Symbol, nonempty: Symbol, p: nat) {
    Tops(rooms, key, p - 6) || Tops(rooms, value, p - 2) || Tops(rooms, nonempty, p)
  }

  /** A member's seven symbols come last in the row. */
  lemma MemberAttains(rooms: Rooms, row: seq<Symbol>, key: Symbol, value: Symbol, nonempty: Symbol, p: nat)
    requires |row| >= 7 && row[|row| - 7] == key && row[|row| - 3] == value && row[|row| - 1] == nonempty
    requires MemberTops(rooms, key, value, nonempty, p)
    ensures Attains(rooms, [row], |rooms|, p)
  {
    var n := |row|;
    if Tops(rooms, key, p - 6) {
      assert TopsAt(rooms, [row], |rooms|, p, 0, n - 7);
    } else if Tops(rooms, value, p - 2) {
      assert TopsAt(rooms, [row], |rooms|, p, 0, n - 3);
    } else {
      assert TopsAt(rooms, [row], |rooms|, p, 0, n - 1);
    }
  }

  // ----- documents -----

  /** The record of a whole document. */
  predicate IsDocument(room: Room, s: Schema) {
    && room.most <= StackNeed(s, SCALAR_ROOM) + 1 && StackNeed(s, 1) + 1 <= Larger(1, room.least)
    && room.first == DocumentCost(s)
  }

  lemma DocumentRecord(rooms: Rooms, row: seq<Symbol>, s: Schema)
    requires |row| == 3 && Blank(rooms, row[0]) && Sized(rooms, row[1], s) && Blank(rooms, row[2])
    ensures RowFits(rooms, row, StackNeed(s, SCALAR_ROOM) + 1)
    ensures Attains(rooms, [row], |rooms|, StackNeed(s, 1) + 1)
    ensures RuleCost(rooms, [row]) == DocumentCost(s)
  {
    DocumentFits(rooms, row, s);
    DocumentCosts(rooms, [row], s);
  }

  lemma DocumentFits(rooms: Rooms, row: seq<Symbol>, s: Schema)
    requires |row| == 3 && Blank(rooms, row[0]) && Sized(rooms, row[1], s) && Blank(rooms, row[2])
    ensures RowFits(rooms, row, StackNeed(s, SCALAR_ROOM) + 1)
    ensures Attains(rooms, [row], |rooms|, StackNeed(s, 1) + 1)
  {
    RowAttains(rooms, row, 1, StackNeed(s, 1) + 1);
  }

  lemma DocumentCosts(rooms: Rooms, rows: seq<seq<Symbol>>, s: Schema)
    requires |rows| == 1 && |rows[0]| == 3
    requires Blank(rooms, rows[0][0]) && Sized(rooms, rows[0][1], s) && Blank(rooms, rows[0][2])
    ensures RuleCost(rooms, rows) == DocumentCost(s)
  {
    DocumentRowCost(rooms, rows[0], s);
    var c := FirstCost(s);
    RuleOfRow(rooms, rows, 2 + c.work + 2 * c.gone, 1 + c.live + c.gone, c.gone, Larger(4, c.early + 1));
  }

  lemma RuleOfRow(rooms: Rooms, rows: seq<seq<Symbol>>, work: nat, live: nat, gone: nat, early: nat)
    requires |rows| == 1 && Comes(RowCost(rooms, rows[0]), work, live, gone, early) && early >= 1
    ensures Comes(RuleCost(rooms, rows), work + 1, live, gone, early)
  {
    OneRowCost(rooms, rows);
  }

  lemma RowAttains(rooms: Rooms, row: seq<Symbol>, k: nat, p: nat)
    requires k < |row| && Tops(rooms, row[k], p - (|row| - 1 - k))
    ensures Attains(rooms, [row], |rooms|, p)
  {
    assert TopsAt(rooms, [row], |rooms|, p, 0, k);
  }

  lemma DocumentRowCost(rooms: Rooms, row: seq<Symbol>, s: Schema)
    requires |row| == 3 && Blank(rooms, row[0]) && Blank(rooms, row[2]) && Sized(rooms, row[1], s)
    ensures var c := FirstCost(s);
            Comes(RowCost(rooms, row), 2 + c.work + 2 * c.gone, 1 + c.live + c.gone, c.gone, Larger(4, c.early + 1))
  {
    var c, tail, last := FirstCost(s), RowCost(rooms, row[1..]), RowCost(rooms, row[2..]);
    SymbolCost(rooms, row[2..]);
    assert row[1..][1..] == row[2..] && row[1..][0] == row[1];
    RowCostStep(rooms, row[1..]);
    TimesIsProduct(c.gone, last.work);
    TimesIsProduct(c.gone, last.live);
    TimesIsProduct(c.gone, last.gone);
    RowCostStep(rooms, row);
    TimesIsProduct(1, tail.work);
    TimesIsProduct(1, tail.live);
    TimesIsProduct(1, tail.gone);
  }
}
