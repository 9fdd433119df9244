/**
 Constrained generation from end to end: the tokens that the constraint accepts
 spell a document of the schema, and the decoder, fed one token at a time,
 hands it on unchanged wherever tokens split characters.
 */
module ConstrainedTexts {
  import opened Wrappers
  import opened Bytes
  import opened Unicode
  import opened Grammars
  import opened RankedGrammars
  import opened Languages
  import opened JsonTexts
  import opened JsonUtf8
  import opened Constraints
  import opened Utf8Decoders

  /** The bytes of each token, as they are pushed to the decoder. */
  function Pieces(bytes: seq<Word>, ends: seq<int>, tokens: seq<int>): seq<Word> {
    if tokens == [] then []
    else
      var t := tokens[0];
      [if t in ends || t < 0 || t >= |bytes| then [] else bytes[t]] + Pieces(bytes, ends, tokens[1..])
  }

  lemma {:induction false} PiecesSpell(bytes: seq<Word>, ends: seq<int>, tokens: seq<int>)
    ensures Flatten(Pieces(bytes, ends, tokens)) == Spelling(bytes, ends, tokens)
    decreases |tokens|
  {
    if tokens != [] {
      PiecesSpell(bytes, ends, tokens[1..]);
      assert Pieces(bytes, ends, tokens)[1..] == Pieces(bytes, ends, tokens[1..]);
    }
  }

  /** Accepted tokens, for any grammar whose words are well-formed UTF-8. */
  lemma AcceptedTextIsUnchanged(g: Grammar, l: Language, bytes: seq<Word>, ends: seq<int>, tokens: seq<int>)
    requires Denotes(g, g.start, l) && AllWellFormed(l)
    requires Initial(g).Success? && tokens != [] && tokens[|tokens| - 1] in ends
    requires AcceptAll(g, bytes, ends, Initial(g).value, tokens).Success?
    ensures Spelling(bytes, ends, tokens) in l
    ensures PushAll([], Pieces(bytes, ends, tokens), []) == Spelling(bytes, ends, tokens)
  {
    var w := Spelling(bytes, ends, tokens);
    EndedRunSpellsWord(g, bytes, ends, tokens);
    PiecesSpell(bytes, ends, tokens);
    assert w + [] == w;
    ChunksDecodeAsWhole(Pieces(bytes, ends, tokens), []);
  }

  /** The schema's documents, token by token. */
  lemma SchemaTextIsUnchanged(g: Grammar, s: Schema, bytes: seq<Word>, ends: seq<int>, tokens: seq<int>)
    requires Denotes(g, g.start, Documents(s)) && LiteralsWellFormed(s)
    requires Initial(g).Success? && tokens != [] && tokens[|tokens| - 1] in ends
    requires AcceptAll(g, bytes, ends, Initial(g).value, tokens).Success?
    ensures Spelling(bytes, ends, tokens) in Documents(s) && WellFormed(Spelling(bytes, ends, tokens))
    ensures PushAll([], Pieces(bytes, ends, tokens), []) == Spelling(bytes, ends, tokens)
  {
    DocumentsWellFormed(s);
    AcceptedTextIsUnchanged(g, Documents(s), bytes, ends, tokens);
  }
}
