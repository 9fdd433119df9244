/** Sets of words, and what a grammar symbol denotes as grammars grow. */
module Languages {
  import opened Wrappers
  import opened Bytes
  import opened Grammars
  import opened RankedGrammars

  type Language = iset<Word>

  ghost predicate InCat(a: Language, b: Language, w: Word) {
    exists k | 0 <= k <= |w| :: w[..k] in a && w[k..] in b
  }

  ghost function Cat(a: Language, b: Language): Language {
    iset w | InCat(a, b, w)
  }

  ghost function CatAll(parts: seq<Language>): Language {
    if parts == [] then iset{[]} else Cat(parts[0], CatAll(parts[1..]))
  }

  ghost predicate InUnion(parts: seq<Language>, w: Word) {
    exists i | 0 <= i < |parts| :: w in parts[i]
  }

  ghost function Union(parts: seq<Language>): Language {
    iset w | InUnion(parts, w)
  }

  ghost function Optionally(a: Language): Language {
    a + iset{[]}
  }

  /** The one-byte words over a set of bytes. */
  ghost function Chars(chars: set<byte>): Language {
    iset w: Word | |w| == 1 && w[0] in chars
  }

  ghost function Text(t: Word): Language {
    iset{t}
  }

  /** The words of this length whose i-th byte is in the i-th class. */
  ghost predicate ByClass(classes: seq<set<byte>>, w: Word) {
    |w| == |classes| && forall i | 0 <= i < |w| :: w[i] in classes[i]
  }

  function Flatten(parts: seq<Word>): Word {
    if parts == [] then [] else parts[0] + Flatten(parts[1..])
  }

  ghost predicate AllIn(parts: seq<Word>, a: Language) {
    forall i | 0 <= i < |parts| :: parts[i] in a
  }

  ghost predicate InStar(a: Language, w: Word) {
    exists parts: seq<Word> :: AllIn(parts, a) && Flatten(parts) == w
  }

  ghost function Star(a: Language): Language {
    iset w | InStar(a, w)
  }

  // ----- laws -----

  lemma CatMember(a: Language, b: Language, u: Word, v: Word)
    requires u in a && v in b
    ensures u + v in Cat(a, b)
  {
    var w := u + v;
    assert w[..|u|] == u && w[|u|..] == v;
  }

  lemma CatAssociative(a: Language, b: Language, c: Language)
    ensures Cat(Cat(a, b), c) == Cat(a, Cat(b, c))
  {
    forall w ensures InCat(Cat(a, b), c, w) <==> InCat(a, Cat(b, c), w) {
      if k :| 0 <= k <= |w| && w[..k] in Cat(a, b) && w[k..] in c {
        var j :| 0 <= j <= k && w[..k][..j] in a && w[..k][j..] in b;
        assert w[..k][..j] == w[..j];
        CatMember(b, c, w[..k][j..], w[k..]);
        assert w[..k][j..] + w[k..] == w[j..];
      }
      if j :| 0 <= j <= |w| && w[..j] in a && w[j..] in Cat(b, c) {
        var i :| 0 <= i <= |w| - j && w[j..][..i] in b && w[j..][i..] in c;
        CatMember(a, b, w[..j], w[j..][..i]);
        assert w[..j] + w[j..][..i] == w[..j + i];
        assert w[j..][i..] == w[j + i..];
      }
    }
  }

  lemma CatEmptyLeft(a: Language, w: Word)
    ensures InCat(iset{[]}, a, w) <==> w in a
  {
    if w in a {
      assert w[..0] == [] && w[0..] == w;
    }
    if k :| 0 <= k <= |w| && w[..k] in iset{[]} && w[k..] in a {
      assert |w[..k]| == 0;
      assert w[0..] == w;
    }
  }

  lemma CatEmptyRight(a: Language, w: Word)
    ensures InCat(a, iset{[]}, w) <==> w in a
  {
    if w in a {
      assert w[..|w|] == w && w[|w|..] == [];
    }
    if k :| 0 <= k <= |w| && w[..k] in a && w[k..] in iset{[]} {
      assert |w[k..]| == 0;
      assert w[..|w|] == w;
    }
  }

  lemma CatEmpty(a: Language)
    ensures Cat(iset{[]}, a) == a && Cat(a, iset{[]}) == a
  {
    forall w {:trigger InCat(iset{[]}, a, w)} ensures InCat(iset{[]}, a, w) <==> w in a {
      CatEmptyLeft(a, w);
    }
    forall w {:trigger InCat(a, iset{[]}, w)} ensures InCat(a, iset{[]}, w) <==> w in a {
      CatEmptyRight(a, w);
    }
  }

  lemma {:induction false} CatAllConcat(a: seq<Language>, b: seq<Language>)
    ensures CatAll(a + b) == Cat(CatAll(a), CatAll(b))
    decreases |a|
  {
    if a == [] {
      assert a + b == b;
      CatEmpty(CatAll(b));
    } else {
      assert (a + b)[1..] == a[1..] + b;
      CatAllConcat(a[1..], b);
      CatAssociative(a[0], CatAll(a[1..]), CatAll(b));
    }
  }

  lemma CatAllOne(a: Language)
    ensures CatAll([a]) == a
  {
    assert [a][1..] == [];
    CatEmpty(a);
  }

  ghost function CharsOf(classes: seq<set<byte>>): seq<Language> {
    seq(|classes|, i requires 0 <= i < |classes| => Chars(classes[i]))
  }

  lemma {:induction false} CatAllChars(classes: seq<set<byte>>, w: Word)
    ensures w in CatAll(CharsOf(classes)) <==> ByClass(classes, w)
    decreases |classes|
  {
    if classes != [] {
      var rest := classes[1..];
      assert CharsOf(classes)[1..] == CharsOf(rest);
      if w != [] {
        CatAllChars(rest, w[1..]);
        assert w == [w[0]] + w[1..];
        assert ByClass(classes, w) <==> w[0] in classes[0] && ByClass(rest, w[1..]);
        assert w[..1] == [w[0]];
      }
    }
  }

  lemma {:induction false} FlattenConcat(a: seq<Word>, b: seq<Word>)
    ensures Flatten(a + b) == Flatten(a) + Flatten(b)
    decreases |a|
  {
    if a == [] {
      assert a + b == b;
    } else {
      assert (a + b)[1..] == a[1..] + b;
      FlattenConcat(a[1..], b);
    }
  }

  /** A star unrolls once at the front. */
  lemma StarUnrolls(a: Language, w: Word)
    ensures w in Star(a) <==> w == [] || w in Cat(a, Star(a))
  {
    if parts: seq<Word> :| AllIn(parts, a) && Flatten(parts) == w {
      if parts != [] {
        assert AllIn(parts[1..], a);
        assert InStar(a, Flatten(parts[1..]));
        CatMember(a, Star(a), parts[0], Flatten(parts[1..]));
      }
    }
    if w == [] {
      assert AllIn([], a) && Flatten([]) == w;
    } else if k :| 0 <= k <= |w| && w[..k] in a && w[k..] in Star(a) {
      var parts: seq<Word> :| AllIn(parts, a) && Flatten(parts) == w[k..];
      var all := [w[..k]] + parts;
      assert all[1..] == parts && AllIn(all, a);
      assert Flatten(all) == w[..k] + w[k..] == w;
    }
  }

  /** With no empty factor, the star is the only solution of its equation. */
  lemma {:induction false} StarIsUnique(a: Language, x: Language, w: Word)
    requires [] !in a
    requires forall v :: v in x <==> v == [] || v in Cat(a, x)
    ensures w in x <==> w in Star(a)
    decreases |w|
  {
    StarUnrolls(a, w);
    if w != [] {
      forall k | 0 < k <= |w| ensures w[k..] in x <==> w[k..] in Star(a) {
        StarIsUnique(a, x, w[k..]);
      }
      assert w[..0] == [];
      if w in x {
        var k :| 0 <= k <= |w| && w[..k] in a && w[k..] in x;
      }
      if w in Star(a) {
        var k :| 0 <= k <= |w| && w[..k] in a && w[k..] in Star(a);
      }
    }
  }

  // ----- what symbols denote -----

  ghost predicate Denotes(g: Grammar, s: Symbol, l: Language) {
    Below(g, s, |g.rules|) && forall w :: Derives(g, [s], w) <==> w in l
  }

  ghost predicate DenotesAll(g: Grammar, symbols: seq<Symbol>, ls: seq<Language>) {
    |symbols| == |ls| && forall i | 0 <= i < |ls| :: Denotes(g, symbols[i], ls[i])
  }

  lemma {:induction false} SequenceDenotes(g: Grammar, symbols: seq<Symbol>, ls: seq<Language>, w: Word)
    requires DenotesAll(g, symbols, ls)
    ensures Derives(g, symbols, w) <==> w in CatAll(ls)
    decreases |symbols|
  {
    if symbols == [] {
      DerivesNothing(g, w);
    } else {
      assert [symbols[0]] + symbols[1..] == symbols;
      DerivesConcat(g, [symbols[0]], symbols[1..], w);
      assert DenotesAll(g, symbols[1..], ls[1..]);
      forall k | 0 <= k <= |w| ensures Derives(g, symbols[1..], w[k..]) <==> w[k..] in CatAll(ls[1..]) {
        SequenceDenotes(g, symbols[1..], ls[1..], w[k..]);
      }
      assert Denotes(g, symbols[0], ls[0]);
    }
  }

  lemma TerminalDenotes(g: Grammar, t: Symbol)
    requires t < 0 && -t - 1 < |g.terminals|
    ensures Denotes(g, t, Chars(g.terminals[-t - 1]))
  {
    forall w ensures Derives(g, [t], w) <==> w in Chars(g.terminals[-t - 1]) {
      assert [t] + [] == [t];
      DerivesTerminal(g, t, [], w);
      if w != [] {
        DerivesNothing(g, w[1..]);
      }
    }
  }

  lemma RuleDenotes(g: Grammar, r: Symbol, ls: seq<seq<Language>>)
    requires IsRule(g, r) && |ls| == |g.rules[r]|
    requires forall i | 0 <= i < |ls| :: DenotesAll(g, g.rules[r][i], ls[i])
    ensures Denotes(g, r, Union(CatAlls(ls)))
  {
    forall w ensures Derives(g, [r], w) <==> w in Union(CatAlls(ls)) {
      assert [r] + [] == [r];
      DerivesRule(g, r, [], w);
      forall i | 0 <= i < |ls| ensures Derives(g, g.rules[r][i] + [], w) <==> w in CatAlls(ls)[i] {
        assert g.rules[r][i] + [] == g.rules[r][i];
        SequenceDenotes(g, g.rules[r][i], ls[i], w);
      }
    }
  }

  ghost function CatAlls(ls: seq<seq<Language>>): seq<Language> {
    seq(|ls|, i requires 0 <= i < |ls| => CatAll(ls[i]))
  }

  /** The right recursion of `many` denotes the star. */
  lemma ManyDenotesStar(g: Grammar, r: Symbol, value: Symbol, l: Language)
    requires IsRule(g, r) && g.rules[r] == [[], [value, r]]
    requires Denotes(g, value, l) && [] !in l
    ensures Denotes(g, r, Star(l))
  {
    var x: Language := iset w | Derives(g, [r], w);
    forall v ensures v in x <==> v == [] || v in Cat(l, x) {
      assert [r] + [] == [r] && [value] + [r] == [value, r];
      DerivesRule(g, r, [], v);
      assert [] + [] == g.rules[r][0] && [value, r] + [] == [value, r] == g.rules[r][1];
      assert Derives(g, [r], v) <==> Derives(g, g.rules[r][0] + [], v) || Derives(g, g.rules[r][1] + [], v);
      DerivesNothing(g, v);
      DerivesConcat(g, [value], [r], v);
    }
    forall w ensures Derives(g, [r], w) <==> w in Star(l) {
      StarIsUnique(l, x, w);
    }
  }

  // ----- growth keeps every denotation -----

  ghost predicate Extends(g: Grammar, h: Grammar) {
    g.rules <= h.rules && g.terminals <= h.terminals
  }

  lemma {:induction false} ExtensionParses(g: Grammar, h: Grammar, symbols: seq<Symbol>, f: Forest)
    requires Ranked(g) && Extends(g, h) && Closed(g, symbols)
    ensures Parses(g, symbols, f) <==> Parses(h, symbols, f)
    decreases f
  {
    match f
    case Empty =>
    case Leaf(b, rest) =>
      if symbols != [] {
        ExtensionParses(g, h, symbols[1..], rest);
      }
    case Node(i, children, rest) =>
      if symbols != [] && symbols[0] >= 0 {
        ExtensionParses(g, h, symbols[1..], rest);
        if i < |g.rules[symbols[0]]| {
          RankedIsClosed(g, symbols[0], i);
          ExtensionParses(g, h, g.rules[symbols[0]][i], children);
        }
      }
  }

  lemma ExtensionDerives(g: Grammar, h: Grammar, symbols: seq<Symbol>, w: Word)
    requires Ranked(g) && Extends(g, h) && Closed(g, symbols)
    ensures Derives(g, symbols, w) <==> Derives(h, symbols, w)
  {
    forall f ensures Parses(g, symbols, f) <==> Parses(h, symbols, f) {
      ExtensionParses(g, h, symbols, f);
    }
  }

  /** h is a ranked grammar in which every symbol of g still denotes what it did. */
  ghost predicate Grown(g: Grammar, h: Grammar) {
    && Ranked(h)
    && forall s: Symbol, l: Language {:trigger Denotes(h, s, l)} :: Denotes(g, s, l) ==> Denotes(h, s, l)
  }

  lemma GrownDenotesAll(g: Grammar, h: Grammar, symbols: seq<Symbol>, ls: seq<Language>)
    requires Grown(g, h) && DenotesAll(g, symbols, ls)
    ensures DenotesAll(h, symbols, ls)
  {
    forall i | 0 <= i < |ls| ensures Denotes(h, symbols[i], ls[i]) {
      assert Denotes(g, symbols[i], ls[i]);
    }
  }

  lemma DenotesAllConcat(g: Grammar, a: seq<Symbol>, b: seq<Symbol>, la: seq<Language>, lb: seq<Language>)
    requires DenotesAll(g, a, la) && DenotesAll(g, b, lb)
    ensures DenotesAll(g, a + b, la + lb)
  {}

  lemma ExtensionGrows(g: Grammar, h: Grammar)
    requires Ranked(g) && Ranked(h) && Extends(g, h)
    ensures Grown(g, h)
  {
    forall s: Symbol, l: Language | Denotes(g, s, l) ensures Denotes(h, s, l) {
      forall w ensures Derives(h, [s], w) <==> w in l {
        ExtensionDerives(g, h, [s], w);
      }
    }
  }

  lemma ExtensionKeepsRankedRule(g: Grammar, h: Grammar, r: nat)
    requires Ranked(g) && Extends(g, h) && r < |g.rules|
    ensures RankedRule(h, r)
  {
    assert RankedRule(g, r);
    assert g.rules[r] == h.rules[r];
    forall i | 0 <= i < |g.rules[r]| ensures RankedAlternative(h, r, h.rules[r][i]) {
      var a := g.rules[r][i];
      assert RankedAlternative(g, r, a);
      if !AllBelow(g, a, r) {
        ExtensionDerives(g, h, [a[0]], []);
      }
    }
    var i :| 0 <= i < |g.rules[r]| && AllBelow(g, g.rules[r][i], r);
    assert AllBelow(h, h.rules[r][i], r);
  }

  lemma TerminalAdded(g: Grammar, h: Grammar)
    requires Ranked(g) && g.rules == h.rules && g.terminals <= h.terminals
    requires forall t | |g.terminals| <= t < |h.terminals| :: h.terminals[t] != {}
    ensures Grown(g, h)
  {
    forall r | 0 <= r < |h.rules| ensures RankedRule(h, r) {
      ExtensionKeepsRankedRule(g, h, r);
    }
    ExtensionGrows(g, h);
  }

  /** A new rule over symbols already present keeps the grammar ranked. */
  lemma RuleAdded(g: Grammar, h: Grammar, alternatives: seq<seq<Symbol>>)
    requires Ranked(g) && h.rules == g.rules + [alternatives] && h.terminals == g.terminals
    requires alternatives != [] && forall i | 0 <= i < |alternatives| :: Closed(g, alternatives[i])
    ensures Grown(g, h)
  {
    forall r | 0 <= r < |h.rules| ensures RankedRule(h, r) {
      if r < |g.rules| {
        ExtensionKeepsRankedRule(g, h, r);
      } else {
        forall i | 0 <= i < |alternatives| ensures AllBelow(h, h.rules[r][i], r) {
          assert Closed(g, alternatives[i]);
        }
        assert AllBelow(h, h.rules[r][0], r);
      }
    }
    ExtensionGrows(g, h);
  }

  lemma ManyAdded(g: Grammar, h: Grammar, value: Symbol, l: Language)
    requires Ranked(g) && h.rules == g.rules + [[[], [value, |g.rules|]]] && h.terminals == g.terminals
    requires Denotes(g, value, l) && [] !in l
    ensures Grown(g, h) && Denotes(h, |g.rules|, Star(l))
  {
    var n := |g.rules|;
    ExtensionDerives(g, h, [value], []);
    forall r | 0 <= r < |h.rules| ensures RankedRule(h, r) {
      if r < n {
        ExtensionKeepsRankedRule(g, h, r);
      } else {
        assert AllBelow(h, h.rules[n][0], n);
        assert RankedAlternative(h, n, h.rules[n][1]);
      }
    }
    ExtensionGrows(g, h);
    assert Denotes(h, value, l);
    ManyDenotesStar(h, n, value, l);
  }
}
